/** Leaving a room: both sides forget each other and the slots are retired. */
module RoomDepartures {
  import opened Wrappers
  import opened RemoteSlots
  import opened MediaGraph

  function WithoutEntry(receivers: Receivers, x: PeerId): Receivers {
    var k := ScanEntry(receivers, x, 0);
    if k < MAX_REMOTE_SLOTS then receivers - {k} else receivers
  }

  function WithoutRoute(bundle: Bundle, x: PeerId): Bundle {
    var j := ScanRoute(bundle, x, 0);
    if j < MAX_REMOTE_SLOTS then bundle - {j} else bundle
  }

  function RetireEntry(t: Table, e: Entry): (r: (Table, bool))
    requires t.Shaped()
    ensures r.0.Shaped()
  {
    if e.remoteSlot >= 0 && e.generation >= 0 then Retire(t, e.remoteSlot, e.generation) else (t, false)
  }

  /** What the table of a remaining session becomes. */
  function ForgetPublisher(t: Table, receivers: Receivers, x: PeerId): (r: Table)
    requires t.Shaped()
    ensures r.Shaped()
  {
    var k := ScanEntry(receivers, x, 0);
    if k < MAX_REMOTE_SLOTS then RetireEntry(t, receivers[k]).0 else t
  }

  /** The leaver retires the slot of each of its entries, in slot order. */
  function RetireAll(t: Table, receivers: Receivers, from: nat): (r: Table)
    requires t.Shaped() && from <= MAX_REMOTE_SLOTS
    ensures r.Shaped()
    decreases MAX_REMOTE_SLOTS - from
  {
    if from == MAX_REMOTE_SLOTS then t
    else RetireAll(if from in receivers then RetireEntry(t, receivers[from]).0 else t, receivers, from + 1)
  }

  predicate Roommate(g: Graph, x: PeerId, q: PeerId)
    requires x in g.peers && q in g.peers
  {
    q != x && g.peers[q].room == g.peers[x].room
  }

  /** Session `o` drops its entry for `x`, its route to `x`, and retires the slot. */
  function ForgetAt(g: Graph, o: PeerId, x: PeerId): (r: Graph)
    requires Ready(g) && o in g.peers
    ensures Ready(r) && r == g.(tables := r.tables, receivers := r.receivers, bundles := r.bundles)
  {
    g.(tables := g.tables[o := g.tables[o].(table := ForgetPublisher(g.tables[o].table, g.receivers[o], x))],
       receivers := g.receivers[o := WithoutEntry(g.receivers[o], x)],
       bundles := g.bundles[o := WithoutRoute(g.bundles[o], x)])
  }

  function ForgetLoop(g: Graph, x: PeerId, seats: seq<Option<PeerId>>, i: nat): (r: Graph)
    requires Ready(g) && i <= |seats| && forall j | 0 <= j < |seats| :: seats[j].Some? ==> seats[j].value in g.peers
    ensures Ready(r) && r == g.(tables := r.tables, receivers := r.receivers, bundles := r.bundles)
    decreases |seats| - i
  {
    if i == |seats| then g
    else ForgetLoop(if seats[i].Some? then ForgetAt(g, seats[i].value, x) else g, x, seats, i + 1)
  }

  /** The leaver's own fields: slots retired, entries and routes dropped, seat given up. */
  function ClearLeaver(g: Graph, x: PeerId): Graph
    requires Ready(g) && x in g.peers
  {
    Graph(g.peers[x := g.peers[x].(room := None, roomSlot := -1)],
          g.tables[x := g.tables[x].(table := RetireAll(g.tables[x].table, g.receivers[x], 0))],
          g.receivers[x := map[]], g.bundles[x := map[]], g.rooms)
  }

  /** The leaver's seat is emptied and goes on top of the free ones. */
  function Vacated(room: Room, seat: nat): Room
    requires seat < |room.seats|
  {
    Room(room.seats[seat := None], room.free + [seat])
  }

  ghost predicate SeatedIn(g: Graph, r: RoomId, x: PeerId) {
    && RoomsInv(g.peers, g.rooms) && r in g.rooms && x in g.peers && g.peers[x].room == Some(r)
    && 0 <= g.peers[x].roomSlot < |g.rooms[r].seats| && g.rooms[r].seats[g.peers[x].roomSlot] == Some(x)
  }

  /** The seats that are still taken are those of the leaver's roommates, each on its own. */
  lemma RemainingSeats(g: Graph, r: RoomId, x: PeerId)
    requires RoomsInv(g.peers, g.rooms) && r in g.rooms && x in g.peers && g.peers[x].room == Some(r)
    ensures SeatedIn(g, r, x)
    ensures var seats := Vacated(g.rooms[r], g.peers[x].roomSlot).seats;
      && (forall j | 0 <= j < |seats| && seats[j].Some? ::
            seats[j].value in g.peers && Roommate(g, x, seats[j].value) && g.peers[seats[j].value].roomSlot == j)
      && (forall q | q in g.peers && Roommate(g, x, q) ::
            0 <= g.peers[q].roomSlot < |seats| && seats[g.peers[q].roomSlot] == Some(q))
  {
    assert HasSeat(g.rooms, x, g.peers[x]) && RoomOk(g.peers, r, g.rooms[r]);
    var seats := Vacated(g.rooms[r], g.peers[x].roomSlot).seats;
    forall j | 0 <= j < |seats| && seats[j].Some?
      ensures seats[j].value in g.peers && Roommate(g, x, seats[j].value) && g.peers[seats[j].value].roomSlot == j
    {
      assert SeatOk(g.peers, r, g.rooms[r], j);
    }
    forall q | q in g.peers && Roommate(g, x, q)
      ensures 0 <= g.peers[q].roomSlot < |seats| && seats[g.peers[q].roomSlot] == Some(q)
    {
      assert HasSeat(g.rooms, q, g.peers[q]);
    }
  }

  function Leave(g: Graph, r: RoomId, x: PeerId): Graph
    requires Ready(g) && r in g.rooms && x in g.peers && RoomsInv(g.peers, g.rooms)
  {
    if g.peers[x].room != Some(r) then g
    else
      RemainingSeats(g, r, x);
      var room := Vacated(g.rooms[r], g.peers[x].roomSlot);
      ClearLeaver(ForgetLoop(g.(rooms := g.rooms[r := room]), x, room.seats, 0), x)
  }

  /** Session `q` after the loop: as `ForgetAt` leaves it if it was visited, else untouched. */
  ghost predicate Forgot(g: Graph, g': Graph, x: PeerId, q: PeerId, visited: bool)
    requires Ready(g) && Ready(g') && q in g.peers && q in g'.peers
  {
    if visited then
      && g'.tables[q] == g.tables[q].(table := ForgetPublisher(g.tables[q].table, g.receivers[q], x))
      && g'.receivers[q] == WithoutEntry(g.receivers[q], x)
      && g'.bundles[q] == WithoutRoute(g.bundles[q], x)
    else g'.tables[q] == g.tables[q] && g'.receivers[q] == g.receivers[q] && g'.bundles[q] == g.bundles[q]
  }

  lemma {:induction false} ForgetLoopAt(g: Graph, x: PeerId, seats: seq<Option<PeerId>>, i: nat, q: PeerId,
                                        visited: bool)
    requires Ready(g) && i <= |seats| && forall j | 0 <= j < |seats| :: seats[j].Some? ==> seats[j].value in g.peers
    requires forall a, b | 0 <= a < b < |seats| && seats[a].Some? :: seats[a] != seats[b]
    requires q in g.peers && (visited <==> exists j :: i <= j < |seats| && seats[j] == Some(q))
    ensures Forgot(g, ForgetLoop(g, x, seats, i), x, q, visited)
    decreases |seats| - i
  {
    hide ForgetPublisher, WithoutEntry, WithoutRoute, ForgetAt;
    if i < |seats| {
      var g1 := if seats[i].Some? then ForgetAt(g, seats[i].value, x) else g;
      if seats[i].Some? { ForgetAtIs(g, seats[i].value, x, q); }
      ForgetLoopAt(g1, x, seats, i + 1, q, visited && seats[i] != Some(q));
    }
  }

  lemma ForgetAtIs(g: Graph, o: PeerId, x: PeerId, q: PeerId)
    requires Ready(g) && o in g.peers && q in g.peers
    ensures Forgot(g, ForgetAt(g, o, x), x, q, o == q)
  {
    hide ForgetPublisher, WithoutEntry, WithoutRoute;
  }

  /** Everything a leave did to the sessions' edges. */
  ghost predicate LeftBy(g: Graph, g': Graph, x: PeerId) {
    && Ready(g) && x in g.peers && g'.Keyed() && g'.peers == g.peers[x := g.peers[x].(room := None, roomSlot := -1)]
    && Ready(g') && g'.tables[x] == g.tables[x].(table := RetireAll(g.tables[x].table, g.receivers[x], 0))
    && g'.receivers[x] == map[] && g'.bundles[x] == map[]
    && forall q | q in g.peers && q != x :: Forgot(g, g', x, q, Roommate(g, x, q))
  }

  /** The loop of a leave visits exactly the roommates. */
  lemma LeaveVisits(g: Graph, r: RoomId, x: PeerId, room: Room, q: PeerId)
    requires Ready(g) && r in g.rooms && x in g.peers && RoomsInv(g.peers, g.rooms) && SeatedIn(g, r, x) && q in g.peers
    requires room == Vacated(g.rooms[r], g.peers[x].roomSlot)
    ensures forall j | 0 <= j < |room.seats| :: room.seats[j].Some? ==> room.seats[j].value in g.peers
    ensures Forgot(g, ForgetLoop(g.(rooms := g.rooms[r := room]), x, room.seats, 0), x, q, Roommate(g, x, q))
  {
    hide RoomsInv, ForgetAt, ForgetPublisher, WithoutEntry, WithoutRoute, SeatOk;
    RemainingSeats(g, r, x);
    if Roommate(g, x, q) { assert room.seats[g.peers[q].roomSlot] == Some(q); }
    ForgetLoopAt(g.(rooms := g.rooms[r := room]), x, room.seats, 0, q, Roommate(g, x, q));
  }

  lemma ClearedIsLeftBy(g: Graph, g1: Graph, x: PeerId)
    requires Ready(g) && Ready(g1) && x in g.peers && g1.peers == g.peers
    requires forall q | q in g.peers :: Forgot(g, g1, x, q, Roommate(g, x, q))
    ensures LeftBy(g, ClearLeaver(g1, x), x)
  {
    hide RetireAll, ForgetPublisher, WithoutEntry, WithoutRoute;
    assert Forgot(g, g1, x, x, Roommate(g, x, x));
    var g' := ClearLeaver(g1, x);
    forall q | q in g.peers && q != x ensures Forgot(g, g', x, q, Roommate(g, x, q)) {
      assert Forgot(g, g1, x, q, Roommate(g, x, q));
    }
  }

  lemma LeaveIsLeftBy(g: Graph, r: RoomId, x: PeerId)
    requires Ready(g) && r in g.rooms && x in g.peers && RoomsInv(g.peers, g.rooms) && g.peers[x].room == Some(r)
    ensures LeftBy(g, Leave(g, r, x), x)
  {
    hide RoomsInv, ForgetLoop, ClearLeaver, Forgot, LeftBy;
    RemainingSeats(g, r, x);
    var room := Vacated(g.rooms[r], g.peers[x].roomSlot);
    var g1 := ForgetLoop(g.(rooms := g.rooms[r := room]), x, room.seats, 0);
    forall q | q in g.peers ensures Forgot(g, g1, x, q, Roommate(g, x, q)) {
      LeaveVisits(g, r, x, room, q);
    }
    ClearedIsLeftBy(g, g1, x);
  }

  lemma ForgetKeeps(g: Graph, q: PeerId, x: PeerId)
    requires EdgesInv(g) && q in g.peers
    ensures var t' := ForgetPublisher(g.tables[q].table, g.receivers[q], x);
      && SystemInv(g.tables[q].(table := t'))
      && (forall k | k in g.receivers[q] && g.receivers[q][k].publisher != x ::
            t'.slots[k] == g.tables[q].table.slots[k])
    ensures forall k | k in g.receivers[q] && g.receivers[q][k].publisher == x ::
      && k < MAX_REMOTE_SLOTS && ScanEntry(g.receivers[q], x, 0) == k
      && RetireEntry(g.tables[q].table, g.receivers[q][k]).1
  {
    assert SystemInv(g.tables[q]);
    var t := g.tables[q].table;
    forall k | k in g.receivers[q] ensures EntryOk(g.peers, g.tables, q, k, g.receivers[q][k]) { }
    forall k | k in g.receivers[q] && g.receivers[q][k].publisher == x
      ensures ScanEntry(g.receivers[q], x, 0) == k && RetireEntry(t, g.receivers[q][k]).1
    {
      var i := ScanEntry(g.receivers[q], x, 0);
      assert EntryOk(g.peers, g.tables, q, i, g.receivers[q][i]);
      RetireKeepsInv(t, k, g.receivers[q][k].generation);
    }
    var i := ScanEntry(g.receivers[q], x, 0);
    if i < MAX_REMOTE_SLOTS { RetireKeepsInv(t, i, g.receivers[q][i].generation); }
  }

  /** Every retirement of the leaver matches its slot. */
  lemma {:induction false} RetireAllKeeps(t: Table, receivers: Receivers, from: nat)
    requires RemoteSlots.Inv(t) && from <= MAX_REMOTE_SLOTS
    requires forall k | k in receivers && k >= from ::
      && receivers[k].remoteSlot == k < MAX_REMOTE_SLOTS && t.slots[k].state.Active?
      && t.slots[k].generation == receivers[k].generation
    ensures var t' := RetireAll(t, receivers, from); RemoteSlots.Inv(t') && t'.nextOffer == t.nextOffer
    decreases MAX_REMOTE_SLOTS - from
  {
    if from < MAX_REMOTE_SLOTS {
      if from in receivers {
        RetireKeepsInv(t, from, receivers[from].generation);
        assert RetireEntry(t, receivers[from]).1;
        RetireAllKeeps(RetireEntry(t, receivers[from]).0, receivers, from + 1);
      } else {
        RetireAllKeeps(t, receivers, from + 1);
      }
    }
  }

  /** Seats, free list and memberships still agree once `x` gave up its seat. */
  lemma VacatedKeepsRooms(peers: map<PeerId, Peer>, rooms: map<RoomId, Room>, r: RoomId, x: PeerId, seat: nat)
    requires RoomsInv(peers, rooms) && r in rooms && x in peers && peers[x].room == Some(r)
    requires seat == peers[x].roomSlot < |rooms[r].seats| && rooms[r].seats[seat] == Some(x)
    ensures RoomsInv(peers[x := peers[x].(room := None, roomSlot := -1)], rooms[r := Vacated(rooms[r], seat)])
  {
    var peers' := peers[x := peers[x].(room := None, roomSlot := -1)];
    var rooms' := rooms[r := Vacated(rooms[r], seat)];
    forall r1 | r1 in rooms' ensures RoomOk(peers', r1, rooms'[r1]) {
      assert RoomOk(peers, r1, rooms[r1]) && SeatOk(peers, r, rooms[r], seat);
      forall i | 0 <= i < |rooms'[r1].seats| ensures SeatOk(peers', r1, rooms'[r1], i) {
        assert SeatOk(peers, r1, rooms[r1], i);
      }
    }
    forall q | q in peers' ensures HasSeat(rooms', q, peers'[q]) {
      assert HasSeat(rooms, q, peers[q]);
    }
  }

  lemma LeaveKeepsRooms(g: Graph, r: RoomId, x: PeerId)
    requires Ready(g) && RoomsInv(g.peers, g.rooms) && r in g.rooms && x in g.peers
    ensures RoomsInv(Leave(g, r, x).peers, Leave(g, r, x).rooms)
  {
    hide RetireAll, ForgetLoop, RoomsInv;
    if g.peers[x].room == Some(r) {
      RemainingSeats(g, r, x);
      VacatedKeepsRooms(g.peers, g.rooms, r, x, g.peers[x].roomSlot);
    }
  }

  lemma EntryAfterLeave(g: Graph, g': Graph, x: PeerId, s: PeerId, p: PeerId, k: int, n: int)
    requires EdgesInv(g) && LeftBy(g, g', x)
    ensures HasEntry(g'.receivers, s, p, k, n) <==> (HasEntry(g.receivers, s, p, k, n) && s != x && p != x)
  {
    hide Dual, TablesOk, BundleOk, RetireEntry, RetireAll, ForgetPublisher, Assigned;
    if s in g.peers && s != x {
      assert Forgot(g, g', x, s, Roommate(g, x, s));
      if k in g.receivers[s] {
        ForgetKeeps(g, s, x);
        assert EntryOk(g.peers, g.tables, s, k, g.receivers[s][k]);
      }
    }
  }

  /** After a leave exactly the entries that do not involve the leaver remain. */
  lemma EntriesAfterLeave(g: Graph, g': Graph, x: PeerId)
    requires EdgesInv(g) && LeftBy(g, g', x)
    ensures forall s, p, k, n ::
      HasEntry(g'.receivers, s, p, k, n) <==> (HasEntry(g.receivers, s, p, k, n) && s != x && p != x)
  {
    hide EdgesInv, LeftBy;
    forall s, p, k, n
      ensures HasEntry(g'.receivers, s, p, k, n) <==> (HasEntry(g.receivers, s, p, k, n) && s != x && p != x)
    {
      EntryAfterLeave(g, g', x, s, p, k, n);
    }
  }

  /** A bundle without its route to `x` carries exactly the other routes. */
  lemma WithoutRouteCarries(bundle: Bundle, x: PeerId, j: int, s: PeerId, k: int, n: int)
    requires BundleOk(bundle)
    ensures Carries(WithoutRoute(bundle, x), j, s, k, n) <==> (Carries(bundle, j, s, k, n) && s != x)
  {
    if j in bundle && bundle[j].subscriber == x {
      assert ScanRoute(bundle, x, 0) == j;
    }
  }

  lemma RoutesAfterLeave(g: Graph, g': Graph, x: PeerId)
    requires EdgesInv(g) && LeftBy(g, g', x)
    ensures forall s, p, k, n ::
      HasRoute(g'.bundles, p, s, k, n) <==> (HasRoute(g.bundles, p, s, k, n) && s != x && p != x)
  {
    forall s, p, k, n
      ensures HasRoute(g'.bundles, p, s, k, n) <==> (HasRoute(g.bundles, p, s, k, n) && s != x && p != x)
    {
      if p in g.peers && p != x {
        assert BundleOk(g.bundles[p]) && Forgot(g, g', x, p, Roommate(g, x, p));
        if HasRoute(g'.bundles, p, s, k, n) {
          var j :| Carries(g'.bundles[p], j, s, k, n);
          WithoutRouteCarries(g.bundles[p], x, j, s, k, n);
          assert Carries(g.bundles[p], j, s, k, n);
          RouteLeadsToRoommate(g, p, j);
        }
        if HasRoute(g.bundles, p, s, k, n) && s != x {
          var j :| Carries(g.bundles[p], j, s, k, n);
          WithoutRouteCarries(g.bundles[p], x, j, s, k, n);
          assert Carries(g'.bundles[p], j, s, k, n);
        }
      }
    }
  }

  lemma TablesAfterLeave(g: Graph, g': Graph, x: PeerId)
    requires EdgesInv(g) && LeftBy(g, g', x)
    ensures TablesOk(g'.tables)
  {
    forall q | q in g'.tables ensures SystemInv(g'.tables[q]) {
      assert SystemInv(g.tables[q]);
      if q == x {
        forall k | k in g.receivers[x] ensures EntryOk(g.peers, g.tables, x, k, g.receivers[x][k]) { }
        RetireAllKeeps(g.tables[x].table, g.receivers[x], 0);
      } else {
        assert Forgot(g, g', x, q, Roommate(g, x, q));
        ForgetKeeps(g, q, x);
      }
    }
  }

  lemma RemainingEntriesOk(g: Graph, g': Graph, x: PeerId)
    requires EdgesInv(g) && LeftBy(g, g', x)
    ensures EntriesOk(g'.peers, g'.tables, g'.receivers)
  {
    EntriesAfterLeave(g, g', x);
    forall s, k | s in g'.receivers && k in g'.receivers[s]
      ensures EntryOk(g'.peers, g'.tables, s, k, g'.receivers[s][k])
    {
      assert s != x && Forgot(g, g', x, s, Roommate(g, x, s));
      var e := g'.receivers[s][k];
      assert HasEntry(g'.receivers, s, e.publisher, k, e.generation);
      assert EntryOk(g.peers, g.tables, s, k, g.receivers[s][k]);
      ForgetKeeps(g, s, x);
    }
  }

  lemma LeaveKeepsEdges(g: Graph, g': Graph, x: PeerId)
    requires EdgesInv(g) && LeftBy(g, g', x)
    ensures EdgesInv(g')
  {
    assert Dual(g'.receivers, g'.bundles) by { EntriesAfterLeave(g, g', x); RoutesAfterLeave(g, g', x); }
    TablesAfterLeave(g, g', x);
    RemainingEntriesOk(g, g', x);
    forall p | p in g'.bundles ensures BundleOk(g'.bundles[p]) {
      assert BundleOk(g.bundles[p]);
      if p != x { assert Forgot(g, g', x, p, Roommate(g, x, p)); }
    }
  }

  /** Leaving keeps the invariant; nobody hears the leaver or sends to it, it hears and sends
      to nobody, and every other edge stays. */
  lemma LeaveKeeps(g: Graph, r: RoomId, x: PeerId)
    requires GraphInv(g) && r in g.rooms && x in g.peers
    ensures var g' := Leave(g, r, x);
      && GraphInv(g')
      && (g.peers[x].room == Some(r) ==> g'.peers[x].room == None)
      && (g.peers[x].room == Some(r) ==>
            forall s, p, k, n ::
              HasEntry(g'.receivers, s, p, k, n) <==> (HasEntry(g.receivers, s, p, k, n) && s != x && p != x))
      && (g.peers[x].room != Some(r) ==> g' == g)
  {
    LeaveKeepsRooms(g, r, x);
    if g.peers[x].room == Some(r) {
      LeaveIsLeftBy(g, r, x);
      EntriesAfterLeave(g, Leave(g, r, x), x);
      LeaveKeepsEdges(g, Leave(g, r, x), x);
    }
  }
}

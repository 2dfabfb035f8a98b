/**
 The room operations as they run: the sessions' peers, slot tables, receiver entries and fanout
 routes are changed one session at a time, in loops over the seats, with reservations rolled
 back on failure.  Each method is proved to do exactly the step of the graph model, so
 everything `RoomRuns` shows holds of these loops.

 A slot table is kept as a value here: `ReserveAt` and `RetireAt` apply the functions that the
 loops of `RemoteSlotTable.SlotTable` over the session's arrays are proved to compute.
 */
module RoomService {
  import opened Wrappers
  import opened RemoteSlots
  import opened MediaGraph
  import opened RoomOperations
  import opened RoomDepartures
  import opened RoomRefresh
  import opened RoomRuns

  // ---------------------------------------------------------------------- scanning loops

  method FindEntry(receivers: Receivers, p: PeerId) returns (k: int)
    ensures k == ScanEntry(receivers, p, 0)
  {
    k := 0;
    while k < MAX_REMOTE_SLOTS && !(k in receivers && receivers[k].publisher == p)
      invariant 0 <= k <= MAX_REMOTE_SLOTS && ScanEntry(receivers, p, k) == ScanEntry(receivers, p, 0)
    {
      k := k + 1;
    }
  }

  method FindRoute(bundle: Bundle, s: PeerId) returns (j: int)
    ensures j == ScanRoute(bundle, s, 0)
  {
    j := 0;
    while j < MAX_REMOTE_SLOTS && !(j in bundle && bundle[j].subscriber == s)
      invariant 0 <= j <= MAX_REMOTE_SLOTS && ScanRoute(bundle, s, j) == ScanRoute(bundle, s, 0)
    {
      j := j + 1;
    }
  }

  /** The place of the route to `s`, or the first open one. */
  method PlaceRoute(bundle: Bundle, s: PeerId) returns (j: int)
    ensures j == RouteIndex(bundle, s)
  {
    j := FindRoute(bundle, s);
    if j < MAX_REMOTE_SLOTS { return; }
    j := 0;
    while j < MAX_REMOTE_SLOTS && j in bundle
      invariant 0 <= j <= MAX_REMOTE_SLOTS && FirstOpen(bundle, j) == FirstOpen(bundle, 0)
    {
      j := j + 1;
    }
  }

  method CollectOthers(seats: seq<Option<PeerId>>, x: PeerId, accepting: set<PeerId>) returns (others: seq<PeerId>)
    ensures others == Others(seats, x, accepting, 0)
  {
    others := [];
    for i := 0 to |seats|
      invariant others + Others(seats, x, accepting, i) == Others(seats, x, accepting, 0)
    {
      if seats[i].Some? && seats[i].value != x && seats[i].value in accepting { others := others + [seats[i].value]; }
    }
  }

  method FindReservation(held: seq<Reservation>, owner: PeerId) returns (h: Option<Reservation>)
    ensures h == FindHeld(held, owner)
  {
    assert held[0..] == held;
    for i := 0 to |held|
      invariant FindHeld(held[i..], owner) == FindHeld(held, owner)
    {
      if held[i].owner == owner { return Some(held[i]); }
      assert held[i..][1..] == held[i + 1..];
    }
    h := None;
  }

  class Service {
    var peers: map<PeerId, Peer>
    var tables: map<PeerId, System>
    var receivers: map<PeerId, Receivers>
    var bundles: map<PeerId, Bundle>
    var rooms: map<RoomId, Room>

    ghost function View(): Graph
      reads this
    {
      Graph(peers, tables, receivers, bundles, rooms)
    }

    constructor ()
      ensures View() == EMPTY_GRAPH
    {
      peers, tables, receivers, bundles, rooms := map[], map[], map[], map[], map[];
    }

    // -------------------------------------------------------------------- reservations

    method ReserveAt(owner: PeerId, p: PeerId) returns (r: Option<(nat, nat)>)
      requires Ready(View()) && owner in peers && p in peers
      modifies this`tables
      ensures Ready(View()) && (View(), r) == ReserveFor(old(View()), owner, p)
    {
      hide Reserve;
      var (t, slot) := Reserve(tables[owner].table, peers[p].userId, p);
      tables := tables[owner := tables[owner].(table := t)];
      r := slot;
    }

    method RetireAt(h: Reservation)
      requires Ready(View()) && h.owner in peers
      modifies this`tables
      ensures Ready(View()) && View() == RetireFor(old(View()), h).0
    {
      hide Retire;
      tables := tables[h.owner := tables[h.owner].(table := Retire(tables[h.owner].table, h.slot, h.generation).0)];
    }

    method RollbackSlots(held: seq<Reservation>)
      requires Ready(View()) && AllNamed(View(), held)
      modifies this`tables
      ensures View() == Rollback(old(View()), held)
    {
      hide RetireFor;
      var i := |held|;
      assert held[..i] == held;
      while i > 0
        invariant 0 <= i <= |held|
        invariant Ready(View())
        invariant Rollback(View(), held[..i]) == Rollback(old(View()), held)
      {
        i := i - 1;
        assert held[..i + 1][..i] == held[..i];
        RetireAt(held[i]);
      }
    }

    /** The slots a join needs for one target. */
    method ReserveBoth(x: PeerId, t: PeerId, held: seq<Reservation>) returns (now: seq<Reservation>, pair: Option<Pair>)
      requires Ready(View()) && x in peers && t in peers
      modifies this`tables
      ensures Ready(View())
      ensures var r := ReservePair(old(View()), x, t, held);
        View() == r.graph && now == r.held && pair.Some? == r.ok && (r.ok ==> r.pairs == [pair.value])
    {
      hide ReserveFor;
      now := held;
      var atTarget := None;
      if !peers[x].audience {
        var theirs := ReserveAt(t, x);
        if theirs.None? { return now, None; }
        atTarget := Some(Reservation(t, theirs.value.0, theirs.value.1));
        now := now + [atTarget.value];
      }
      var mine := ReserveAt(x, t);
      if mine.None? { return now, None; }
      var h := Reservation(x, mine.value.0, mine.value.1);
      assert atTarget.Some? ==> held + [atTarget.value] + [h] == held + [atTarget.value, h];
      return now + [h], Some(Pair(atTarget, h));
    }

    method ReserveAll(x: PeerId, targets: seq<PeerId>) returns (held: seq<Reservation>, pairs: seq<Pair>, ok: bool)
      requires Ready(View()) && x in peers && forall i | 0 <= i < |targets| :: targets[i] in peers
      modifies this`tables
      ensures Reserved(View(), held, pairs, ok) == ReserveTargets(old(View()), x, targets, [], [])
    {
      hide ReservePair;
      held, pairs, ok := [], [], true;
      while |pairs| < |targets|
        invariant |pairs| <= |targets| && ok && Ready(View())
        invariant ReserveTargets(View(), x, targets, held, pairs) == ReserveTargets(old(View()), x, targets, [], [])
        decreases |targets| - |pairs|
      {
        var pair;
        held, pair := ReserveBoth(x, targets[|pairs|], held);
        if pair.None? { return held, pairs, false; }
        pairs := pairs + [pair.value];
      }
    }

    // ---------------------------------------------------------------------------- join

    /** Gives subscriber `s` an entry for `p` and `p` a route to `s`; nothing changes on failure. */
    method AttachOne(s: PeerId, p: PeerId, k: int, generation: int) returns (ok: bool)
      requires View().Keyed() && s in peers && p in peers
      modifies this`receivers, this`bundles
      ensures View().Keyed()
      ensures var r := Attach(old(View()), s, p, k, generation);
        ok == r.Some? && View() == if ok then r.value else old(View())
    {
      hide ScanEntry, RouteIndex;
      var known := FindEntry(receivers[s], p);
      if known < MAX_REMOTE_SLOTS || k in receivers[s] { return false; }
      var entries := receivers[s][k := Entry(p, k, generation, peers[p].media)];
      var at := FindEntry(entries, p);
      var j := PlaceRoute(bundles[p], s);
      if j == MAX_REMOTE_SLOTS || at == MAX_REMOTE_SLOTS { return false; }
      receivers := receivers[s := entries];
      var route := Route(s, entries[at].remoteSlot, entries[at].generation, peers[p].media);
      bundles := bundles[p := bundles[p][j := route]];
      ok := true;
    }

    /** Both directions between the joiner and one target. */
    method AttachBoth(x: PeerId, t: PeerId, pair: Pair) returns (ok: bool)
      requires View().Keyed() && x in peers && t in peers
      modifies this`receivers, this`bundles
      ensures View().Keyed()
      ensures var r := AttachPair(old(View()), x, t, pair); ok == r.Some? && (ok ==> View() == r.value)
    {
      hide Attach;
      var h := pair.atTarget;
      ok := true;
      if h.Some? { ok := AttachOne(t, x, h.value.slot, h.value.generation); }
      if ok { ok := AttachOne(x, t, pair.atPeer.slot, pair.atPeer.generation); }
    }

    /** Links the joiner with every target; on failure nothing is published. */
    method AttachAll(x: PeerId, targets: seq<PeerId>, pairs: seq<Pair>) returns (ok: bool)
      requires View().Keyed() && x in peers && |targets| == |pairs|
      requires forall j | 0 <= j < |targets| :: targets[j] in peers
      modifies this`receivers, this`bundles
      ensures View().Keyed()
      ensures var r := AttachTargets(old(View()), x, targets, pairs, 0);
        ok == r.Some? && View() == if ok then r.value else old(View())
    {
      hide AttachPair;
      ghost var g := View();
      var receivers0, bundles0 := receivers, bundles;
      for i := 0 to |targets|
        invariant View().Keyed()
        invariant AttachTargets(View(), x, targets, pairs, i) == AttachTargets(old(View()), x, targets, pairs, 0)
      {
        ok := AttachBoth(x, targets[i], pairs[i]);
        if !ok {
          receivers, bundles := receivers0, bundles0;
          assert View() == g;
          return;
        }
      }
      ok := true;
    }

    method TakeSeat(r: RoomId, x: PeerId)
      requires r in rooms && rooms[r].free != [] && x in peers
      modifies this`rooms, this`peers
      ensures View() == Seat(old(View()), r, x)
    {
      var room := rooms[r];
      var seat := room.free[|room.free| - 1];
      if 0 <= seat < |room.seats| {
        rooms := rooms[r := Room(room.seats[seat := Some(x)], room.free[..|room.free| - 1])];
        peers := peers[x := peers[x].(room := Some(r), roomSlot := seat)];
      }
    }

    method JoinRoom(r: RoomId, x: PeerId, accepting: set<PeerId>, abort: bool) returns (result: JoinResult)
      requires Ready(View()) && r in rooms && x in peers && RoomOk(peers, r, rooms[r])
      modifies this
      ensures (View(), result) == Join(old(View()), r, x, accepting, abort)
    {
      hide ReserveTargets, AttachTargets, Rollback, Others, Seat, RoomOk;
      if peers[x].room.Some? || x !in accepting { return JoinError; }
      if rooms[r].free == [] { return JoinCapacity; }
      OthersSeated(peers, r, rooms[r], x, accepting, 0);
      var targets := CollectOthers(rooms[r].seats, x, accepting);
      var held, pairs, ok := ReserveAll(x, targets);
      if !ok { RollbackSlots(held); return JoinCapacity; }
      if abort { RollbackSlots(held); return JoinError; }
      var rooms0, peers0 := rooms, peers;
      SeatKeepsKeys(View(), r, x);
      TakeSeat(r, x);
      ok := AttachAll(x, targets, pairs);
      if !ok {
        rooms, peers := rooms0, peers0;
        RollbackSlots(held);
        return JoinError;
      }
      result := JoinOk;
    }

    lemma SeatKeepsKeys(g: Graph, r: RoomId, x: PeerId)
      requires g.Keyed() && r in g.rooms && g.rooms[r].free != [] && x in g.peers
      ensures var g' := Seat(g, r, x);
        g'.Keyed() && g'.peers.Keys == g.peers.Keys && g' == g.(rooms := g'.rooms, peers := g'.peers)
    {
    }

    // --------------------------------------------------------------------------- leave

    method DropEntry(o: PeerId, x: PeerId)
      requires Ready(View()) && o in peers
      modifies this`tables, this`receivers
      ensures tables ==
        old(tables)[o := old(tables[o]).(table := ForgetPublisher(old(tables[o]).table, old(receivers[o]), x))]
      ensures receivers == old(receivers)[o := WithoutEntry(old(receivers[o]), x)]
    {
      hide ScanEntry, RetireEntry;
      var k := FindEntry(receivers[o], x);
      if k < MAX_REMOTE_SLOTS {
        tables := tables[o := tables[o].(table := RetireEntry(tables[o].table, receivers[o][k]).0)];
        receivers := receivers[o := receivers[o] - {k}];
      }
    }

    method DropRoute(o: PeerId, x: PeerId)
      requires Ready(View()) && o in peers
      modifies this`bundles
      ensures bundles == old(bundles)[o := WithoutRoute(old(bundles[o]), x)]
    {
      hide ScanRoute;
      var j := FindRoute(bundles[o], x);
      if j < MAX_REMOTE_SLOTS { bundles := bundles[o := bundles[o] - {j}]; }
    }

    /** Session `o` drops its entry for `x`, its route to `x`, and retires the slot. */
    method ForgetOne(o: PeerId, x: PeerId)
      requires Ready(View()) && o in peers
      modifies this`tables, this`receivers, this`bundles
      ensures Ready(View()) && View() == ForgetAt(old(View()), o, x)
    {
      hide ForgetPublisher, WithoutEntry, WithoutRoute;
      DropRoute(o, x);
      DropEntry(o, x);
    }

    /** Every session in `seats` forgets `x`, in seat order. */
    method ForgetEverywhere(x: PeerId, seats: seq<Option<PeerId>>)
      requires Ready(View()) && forall j | 0 <= j < |seats| :: seats[j].Some? ==> seats[j].value in peers
      modifies this`tables, this`receivers, this`bundles
      ensures Ready(View()) && View() == ForgetLoop(old(View()), x, seats, 0)
    {
      hide ForgetAt;
      for i := 0 to |seats|
        invariant Ready(View())
        invariant ForgetLoop(View(), x, seats, i) == ForgetLoop(old(View()), x, seats, 0)
      {
        if seats[i].Some? { ForgetOne(seats[i].value, x); }
      }
    }

    /** The leaver retires the slot of each of its entries. */
    method RetireEntries(x: PeerId)
      requires Ready(View()) && x in peers
      modifies this`tables
      ensures Ready(View())
      ensures tables == old(tables)[x := old(tables[x]).(table := RetireAll(old(tables[x]).table, receivers[x], 0))]
    {
      hide RetireEntry;
      for k := 0 to MAX_REMOTE_SLOTS
        invariant Ready(View()) && tables == old(tables)[x := old(tables[x]).(table := tables[x].table)]
        invariant RetireAll(tables[x].table, receivers[x], k) == RetireAll(old(tables[x]).table, receivers[x], 0)
      {
        if k in receivers[x] {
          tables := tables[x := tables[x].(table := RetireEntry(tables[x].table, receivers[x][k]).0)];
        }
      }
    }

    /** Every remaining session of the room forgets the leaver, then the leaver forgets them. */
    method LeaveRoom(r: RoomId, x: PeerId)
      requires Ready(View()) && r in rooms && x in peers && RoomsInv(peers, rooms)
      modifies this
      ensures View() == Leave(old(View()), r, x)
    {
      hide RoomsInv, ForgetLoop, RetireAll;
      if peers[x].room != Some(r) { return; }
      RemainingSeats(View(), r, x);
      var room := Vacated(rooms[r], peers[x].roomSlot);
      rooms := rooms[r := room];
      ForgetEverywhere(x, room.seats);
      RetireEntries(x);
      receivers := receivers[x := map[]];
      bundles := bundles[x := map[]];
      peers := peers[x := peers[x].(room := None, roomSlot := -1)];
    }

    // ------------------------------------------------- role, push-to-talk and refreshes

    /** Reserves a slot for `x` at every session that has no entry for it yet; stops at a full table. */
    method ReserveMissing(x: PeerId, others: seq<PeerId>) returns (held: seq<Reservation>, ok: bool)
      requires Ready(View()) && x in peers && forall j | 0 <= j < |others| :: others[j] in peers
      modifies this`tables
      ensures Reserved(View(), held, [], ok) == LazyReserve(old(View()), x, others, 0, [])
    {
      hide ReserveFor, ScanEntry;
      held := [];
      for i := 0 to |others|
        invariant Ready(View())
        invariant LazyReserve(View(), x, others, i, held) == LazyReserve(old(View()), x, others, 0, [])
      {
        var k := FindEntry(receivers[others[i]], x);
        if k == MAX_REMOTE_SLOTS {
          var slot := ReserveAt(others[i], x);
          if slot.None? { return held, false; }
          held := held + [Reservation(others[i], slot.value.0, slot.value.1)];
        }
      }
      ok := true;
    }

    /** The reservations of a publisher that is to be heard; they are given back if one fails. */
    method ReserveForListeners(x: PeerId, publish: bool, accepting: set<PeerId>)
      returns (held: seq<Reservation>, ok: bool)
      requires GraphInv(View()) && InRoom(View(), x)
      modifies this`tables
      ensures var r := LazyPhase(old(View()), x, publish, accepting);
        && ok == r.ok && held == r.held && View() == if ok then r.graph else Rollback(r.graph, r.held)
    {
      hide GraphInv, LazyReserve, Rollback, Others;
      ListenersAreRoommates(View(), x, accepting);
      InvIsReady(View());
      var others: seq<PeerId> := [];
      if publish { others := CollectOthers(rooms[peers[x].room.value].seats, x, accepting); }
      held, ok := ReserveMissing(x, others);
      if !ok { RollbackSlots(held); }
    }

    /** Refills the entry for `x`, or adds it from a reservation. */
    method UpdateEntry(x: PeerId, o: PeerId, held: seq<Reservation>, publish: bool)
      requires View().Keyed() && x in peers && o in peers
      modifies this`receivers
      ensures View().Keyed() && View() == RefreshEntry(old(View()), x, o, held, publish)
    {
      hide ScanEntry, FindHeld;
      var k := FindEntry(receivers[o], x);
      var h := FindReservation(held, o);
      if k < MAX_REMOTE_SLOTS {
        receivers := receivers[o := receivers[o][k := receivers[o][k].(media := peers[x].media)]];
      } else if publish && h.Some? && h.value.slot !in receivers[o] {
        var entry := Entry(x, h.value.slot, h.value.generation, peers[x].media);
        receivers := receivers[o := receivers[o][h.value.slot := entry]];
      }
    }

    /** Sets the route to `o` from its entry for `x`, if there is one and a place for the route. */
    method UpdateRoute(x: PeerId, o: PeerId)
      requires View().Keyed() && x in peers && o in peers
      modifies this`bundles
      ensures View().Keyed()
      ensures var r := FanoutAdd(old(View()), x, o); View() == if r.Some? then r.value else old(View())
    {
      hide ScanEntry, RouteIndex;
      var at := FindEntry(receivers[o], x);
      var j := PlaceRoute(bundles[x], o);
      if j != MAX_REMOTE_SLOTS && at != MAX_REMOTE_SLOTS {
        var e := receivers[o][at];
        bundles := bundles[x := bundles[x][j := Route(o, e.remoteSlot, e.generation, peers[x].media)]];
      }
    }

    /** Brings one session's entry for `x` and `x`'s route to it up to date, or adds them. */
    method RefreshListener(x: PeerId, o: PeerId, held: seq<Reservation>, publish: bool)
      requires View().Keyed() && x in peers && o in peers
      modifies this`receivers, this`bundles
      ensures View().Keyed() && View() == RefreshOne(old(View()), x, o, held, publish)
    {
      hide RefreshEntry, FanoutAdd;
      UpdateEntry(x, o, held, publish);
      UpdateRoute(x, o);
    }

    /** Brings the entries and routes of every session that accepts work up to date. */
    method VisitListeners(x: PeerId, held: seq<Reservation>, publish: bool, accepting: set<PeerId>)
      requires GraphInv(View()) && InRoom(View(), x)
      modifies this`receivers, this`bundles
      ensures View() == Visit(old(View()), x, held, publish, accepting)
    {
      hide GraphInv, RefreshOne, Others;
      ListenersAreRoommates(View(), x, accepting);
      InvIsReady(View());
      var others := CollectOthers(rooms[peers[x].room.value].seats, x, accepting);
      for i := 0 to |others|
        invariant View().Keyed()
        invariant RefreshAll(View(), x, others, held, publish, i) ==
          RefreshAll(old(View()), x, others, held, publish, 0)
      {
        RefreshListener(x, others[i], held, publish);
      }
      assert RefreshAll(View(), x, others, held, publish, |others|) == View();
    }

    method RefreshStreams(x: PeerId, accepting: set<PeerId>, acceptingLater: set<PeerId>) returns (ok: bool)
      requires GraphInv(View())
      modifies this`tables, this`receivers, this`bundles
      ensures (View(), ok) == Refresh(old(View()), x, accepting, acceptingLater)
    {
      hide GraphInv, LazyPhase, Visit, Rollback;
      if !InRoom(Graph(peers, tables, receivers, bundles, rooms), x) || x !in accepting { return false; }
      var publish := !peers[x].audience || peers[x].pushToTalk;
      LazyPhaseKeeps(View(), x, publish, accepting);
      var held;
      held, ok := ReserveForListeners(x, publish, accepting);
      if ok { VisitListeners(x, held, publish, acceptingLater); }
    }

    method SetRole(r: RoomId, x: PeerId, audience: bool, video: bool, screen: bool,
                   accepting: set<PeerId>, acceptingLater: set<PeerId>) returns (ok: bool)
      requires GraphInv(View())
      modifies this`peers, this`tables, this`receivers, this`bundles
      ensures (View(), ok) == ChangeRole(old(View()), r, x, audience, video, screen, accepting, acceptingLater)
    {
      hide GraphInv, LazyPhase, Visit, Rollback, RolePeer;
      if !InRoom(Graph(peers, tables, receivers, bundles, rooms), x) { return false; }
      if peers[x].room != Some(r) || peers[x].audience == audience { return false; }
      LazyPhaseKeeps(View(), x, !audience, accepting);
      var peer := RolePeer(peers[x], audience, video, screen);
      RoleKeepsSeat(peers[x], audience, video, screen);
      var held;
      held, ok := ReserveForListeners(x, !audience, accepting);
      if ok {
        PeerMayChange(View(), x, peer);
        peers := peers[x := peer];
        VisitListeners(x, held, !audience, acceptingLater);
      }
    }

    /** Talking changes the peer first and is taken back if the refresh fails. */
    method SetTalking(r: RoomId, x: PeerId, active: bool, accepting: set<PeerId>, acceptingLater: set<PeerId>)
      returns (ok: bool)
      requires GraphInv(View())
      modifies this`peers, this`tables, this`receivers, this`bundles
      ensures (View(), ok) == SetPushToTalk(old(View()), r, x, active, accepting, acceptingLater)
    {
      hide GraphInv, Refresh;
      if !InRoom(Graph(peers, tables, receivers, bundles, rooms), x) { return false; }
      if peers[x].room != Some(r) || !peers[x].audience { return false; }
      var was := peers[x];
      var peer := TalkPeer(was, active);
      PeerMayChange(View(), x, peer);
      peers := peers[x := peer];
      ok := RefreshStreams(x, accepting, acceptingLater);
      if !ok { peers := peers[x := was]; }
    }
  }

  lemma InvIsReady(g: Graph)
    requires GraphInv(g)
    ensures Ready(g)
  {
  }

  lemma RoleKeepsSeat(peer: Peer, audience: bool, video: bool, screen: bool)
    ensures SameSeat(peer, RolePeer(peer, audience, video, screen))
  {
  }
}

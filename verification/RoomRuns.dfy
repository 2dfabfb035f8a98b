/** The operations as a whole, and what holds after every run of them. */
module RoomRuns {
  import opened Wrappers
  import opened RemoteSlots
  import opened MediaGraph
  import opened RoomOperations
  import opened RoomDepartures
  import opened RoomRefresh

  predicate InRoom(g: Graph, x: PeerId) {
    && x in g.peers && g.peers[x].room.Some? && g.peers[x].room.value in g.rooms
    && var seats := g.rooms[g.peers[x].room.value].seats;
    0 <= g.peers[x].roomSlot < |seats| && seats[g.peers[x].roomSlot] == Some(x)
  }

  function Listeners(g: Graph, x: PeerId, accepting: set<PeerId>): seq<PeerId>
    requires InRoom(g, x)
  {
    Others(g.rooms[g.peers[x].room.value].seats, x, accepting, 0)
  }

  lemma ListenersAreRoommates(g: Graph, x: PeerId, accepting: set<PeerId>)
    requires GraphInv(g) && InRoom(g, x)
    ensures Roommates(g, x, Listeners(g, x, accepting))
    ensures forall q | q in g.peers && q != x && q in accepting && g.peers[q].room == g.peers[x].room ::
      q in Listeners(g, x, accepting)
  {
    var r := g.peers[x].room.value;
    assert RoomOk(g.peers, r, g.rooms[r]);
    OthersSeated(g.peers, r, g.rooms[r], x, accepting, 0);
    forall q | q in g.peers && q != x && q in accepting && g.peers[q].room == g.peers[x].room
      ensures q in Listeners(g, x, accepting)
    {
      assert HasSeat(g.rooms, q, g.peers[q]);
    }
  }

  /** The reservations a publisher needs to be heard by everyone who saw it accept work. */
  ghost function LazyPhase(g: Graph, x: PeerId, publish: bool, accepting: set<PeerId>): (r: Reserved)
    requires GraphInv(g) && InRoom(g, x)
    ensures Ready(r.graph) && r.graph == g.(tables := r.graph.tables)
    ensures forall h | h in r.held :: h.owner in g.peers
  {
    ListenersAreRoommates(g, x, accepting);
    LazyReserve(g, x, if publish then Listeners(g, x, accepting) else [], 0, [])
  }

  lemma LazyPhaseKeeps(g: Graph, x: PeerId, publish: bool, accepting: set<PeerId>)
    requires GraphInv(g) && InRoom(g, x)
    ensures var r := LazyPhase(g, x, publish, accepting);
      && GraphInv(r.graph) && AllHeldFor(r.graph, r.held, x) && GraphInv(Rollback(r.graph, r.held))
  {
    ListenersAreRoommates(g, x, accepting);
    LazyReserveKeeps(g, x, if publish then Listeners(g, x, accepting) else [], 0, []);
    var r := LazyPhase(g, x, publish, accepting);
    HeldIsUnused(r.graph, r.held, x);
    RollbackKeeps(r.graph, r.held);
  }

  ghost function Visit(g: Graph, x: PeerId, held: seq<Reservation>, publish: bool, accepting: set<PeerId>): (r: Graph)
    requires GraphInv(g) && InRoom(g, x)
    ensures r == g.(receivers := r.receivers, bundles := r.bundles)
  {
    ListenersAreRoommates(g, x, accepting);
    RefreshAll(g, x, Listeners(g, x, accepting), held, publish, 0)
  }

  lemma VisitKeeps(g: Graph, x: PeerId, held: seq<Reservation>, publish: bool, accepting: set<PeerId>)
    requires GraphInv(g) && InRoom(g, x) && AllHeldFor(g, held, x)
    ensures GraphInv(Visit(g, x, held, publish, accepting))
    ensures VisitsReady(g, x, Listeners(g, x, accepting), held, 0)
  {
    ListenersAreRoommates(g, x, accepting);
    RefreshAllKeeps(g, x, Listeners(g, x, accepting), held, publish, 0);
  }

  // ------------------------------------------------------------- operations

  ghost function Refresh(g: Graph, x: PeerId, accepting: set<PeerId>, acceptingLater: set<PeerId>): (Graph, bool)
    requires GraphInv(g)
  {
    if !InRoom(g, x) || x !in accepting then (g, false)
    else
      var publish := !g.peers[x].audience || g.peers[x].pushToTalk;
      var reserved := LazyPhase(g, x, publish, accepting);
      LazyPhaseKeeps(g, x, publish, accepting);
      if !reserved.ok then (Rollback(reserved.graph, reserved.held), false)
      else (Visit(reserved.graph, x, reserved.held, publish, acceptingLater), true)
  }

  function WithPeer(g: Graph, x: PeerId, peer: Peer): Graph { g.(peers := g.peers[x := peer]) }

  /** Role, push-to-talk and media are not part of anybody's edges. */
  ghost predicate SameSeat(a: Peer, b: Peer) { a.userId == b.userId && a.room == b.room && a.roomSlot == b.roomSlot }

  lemma PeerMayChange(g: Graph, x: PeerId, peer: Peer)
    requires GraphInv(g) && x in g.peers && SameSeat(g.peers[x], peer)
    ensures GraphInv(WithPeer(g, x, peer))
  {
    var g' := WithPeer(g, x, peer);
    forall s, k | s in g'.receivers && k in g'.receivers[s]
      ensures EntryOk(g'.peers, g'.tables, s, k, g'.receivers[s][k])
    {
      assert EntryOk(g.peers, g.tables, s, k, g.receivers[s][k]);
    }
    forall r | r in g'.rooms ensures RoomOk(g'.peers, r, g'.rooms[r]) {
      assert RoomOk(g.peers, r, g.rooms[r]);
      forall i | 0 <= i < |g'.rooms[r].seats| ensures SeatOk(g'.peers, r, g'.rooms[r], i) {
        assert SeatOk(g.peers, r, g.rooms[r], i);
      }
    }
    forall q | q in g'.peers ensures HasSeat(g'.rooms, q, g'.peers[q]) { assert HasSeat(g.rooms, q, g.peers[q]); }
  }

  /** Becoming audience silences the uplink; becoming a speaker activates what is there, where
      `video` and `screen` are the recomputed activity of those streams. */
  function RolePeer(peer: Peer, audience: bool, video: bool, screen: bool): Peer {
    peer.(audience := audience, pushToTalk := false,
          media := if audience then SILENT
                   else peer.media.(audioActive := peer.media.audioActive || peer.media.audioSsrc != 0,
                                    videoActive := video, screenActive := screen))
  }

  ghost function ChangeRole(g: Graph, r: RoomId, x: PeerId, audience: bool, video: bool, screen: bool,
                            accepting: set<PeerId>, acceptingLater: set<PeerId>): (Graph, bool)
    requires GraphInv(g)
  {
    if !InRoom(g, x) || g.peers[x].room != Some(r) || g.peers[x].audience == audience then (g, false)
    else
      var reserved := LazyPhase(g, x, !audience, accepting);
      LazyPhaseKeeps(g, x, !audience, accepting);
      if !reserved.ok then (Rollback(reserved.graph, reserved.held), false)
      else
        var peer := RolePeer(g.peers[x], audience, video, screen);
        PeerMayChange(reserved.graph, x, peer);
        (Visit(WithPeer(reserved.graph, x, peer), x, reserved.held, !audience, acceptingLater), true)
  }

  function TalkPeer(was: Peer, active: bool): Peer {
    was.(pushToTalk := active, media := was.media.(audioActive := active && was.media.audioSsrc != 0))
  }

  ghost function SetPushToTalk(g: Graph, r: RoomId, x: PeerId, active: bool,
                               accepting: set<PeerId>, acceptingLater: set<PeerId>): (Graph, bool)
    requires GraphInv(g)
  {
    if !InRoom(g, x) || g.peers[x].room != Some(r) || !g.peers[x].audience then (g, false)
    else
      var was := g.peers[x];
      var peer := TalkPeer(was, active);
      PeerMayChange(g, x, peer);
      var (g', ok) := Refresh(WithPeer(g, x, peer), x, accepting, acceptingLater);
      if ok then (g', true) else (g'.(peers := g'.peers[x := was]), false)
  }

  lemma HeldSurvives(g: Graph, x: PeerId, peer: Peer, held: seq<Reservation>)
    requires x in g.peers && SameSeat(g.peers[x], peer) && AllHeldFor(g, held, x)
    ensures AllHeldFor(WithPeer(g, x, peer), held, x)
  {
    forall h | h in held ensures HeldFor(WithPeer(g, x, peer), h, h.owner, x) { assert HeldFor(g, h, h.owner, x); }
  }

  lemma RefreshKeeps(g: Graph, x: PeerId, accepting: set<PeerId>, acceptingLater: set<PeerId>)
    requires GraphInv(g)
    ensures var (g', ok) := Refresh(g, x, accepting, acceptingLater);
      GraphInv(g') && g'.peers == g.peers && g'.rooms == g.rooms
  {
    if InRoom(g, x) && x in accepting {
      var publish := !g.peers[x].audience || g.peers[x].pushToTalk;
      var reserved := LazyPhase(g, x, publish, accepting);
      LazyPhaseKeeps(g, x, publish, accepting);
      if reserved.ok { VisitKeeps(reserved.graph, x, reserved.held, publish, acceptingLater); }
    }
  }

  lemma ChangeRoleKeeps(g: Graph, r: RoomId, x: PeerId, audience: bool, video: bool, screen: bool,
                        accepting: set<PeerId>, acceptingLater: set<PeerId>)
    requires GraphInv(g)
    ensures GraphInv(ChangeRole(g, r, x, audience, video, screen, accepting, acceptingLater).0)
  {
    if InRoom(g, x) && g.peers[x].room == Some(r) && g.peers[x].audience != audience {
      var reserved := LazyPhase(g, x, !audience, accepting);
      LazyPhaseKeeps(g, x, !audience, accepting);
      if reserved.ok {
        var peer := RolePeer(g.peers[x], audience, video, screen);
        PeerMayChange(reserved.graph, x, peer);
        HeldSurvives(reserved.graph, x, peer, reserved.held);
        VisitKeeps(WithPeer(reserved.graph, x, peer), x, reserved.held, !audience, acceptingLater);
      }
    }
  }

  lemma SetPushToTalkKeeps(g: Graph, r: RoomId, x: PeerId, active: bool, accepting: set<PeerId>,
                           acceptingLater: set<PeerId>)
    requires GraphInv(g)
    ensures GraphInv(SetPushToTalk(g, r, x, active, accepting, acceptingLater).0)
  {
    hide GraphInv, Refresh;
    if InRoom(g, x) && g.peers[x].room == Some(r) && g.peers[x].audience {
      var was := g.peers[x];
      var peer := TalkPeer(was, active);
      PeerMayChange(g, x, peer);
      RefreshKeeps(WithPeer(g, x, peer), x, accepting, acceptingLater);
      PeerMayChange(Refresh(WithPeer(g, x, peer), x, accepting, acceptingLater).0, x, was);
    }
  }

  /** A refresh that succeeds leaves every session that accepted work in both loops hearing
      the publisher, if the publisher is to be heard. */
  lemma RefreshReachesEveryone(g: Graph, x: PeerId, accepting: set<PeerId>, q: PeerId)
    requires GraphInv(g) && InRoom(g, x) && Refresh(g, x, accepting, accepting).1
    requires !g.peers[x].audience || g.peers[x].pushToTalk
    requires q in g.peers && q != x && q in accepting && g.peers[q].room == g.peers[x].room
    ensures var g' := Refresh(g, x, accepting, accepting).0; q in g'.receivers && Hears(g', q, x)
  {
    var reserved := LazyPhase(g, x, true, accepting);
    LazyPhaseKeeps(g, x, true, accepting);
    ListenersAreRoommates(g, x, accepting);
    var others := Listeners(g, x, accepting);
    var j :| 0 <= j < |others| && others[j] == q;
    LazyReserveCovers(g, x, others, 0, [], j);
    VisitKeeps(reserved.graph, x, reserved.held, true, accepting);
    assert Listeners(reserved.graph, x, accepting) == others;
    RefreshAllHears(reserved.graph, x, others, reserved.held, true, 0, j);
  }

  lemma {:induction false} FindHeldFinds(held: seq<Reservation>, i: nat)
    requires i < |held|
    ensures FindHeld(held, held[i].owner).Some?
  {
    if held[0].owner != held[i].owner { FindHeldFinds(held[1..], i - 1); }
  }

  /** Session `o` hears `x`, or a slot for `x` is held there. */
  ghost predicate Covered(g: Graph, x: PeerId, o: PeerId, held: seq<Reservation>) {
    o in g.receivers && (Hears(g, o, x) || FindHeld(held, o).Some?)
  }

  lemma ReservationCovers(g: Graph, g': Graph, x: PeerId, o: PeerId, held: seq<Reservation>, h: Reservation)
    requires g'.receivers == g.receivers && o in g.receivers && (Covered(g, x, o, held) || h.owner == o)
    ensures Covered(g', x, o, held + [h])
  {
    FindHeldGrows(held, h, o);
    FindHeldFinds(held + [h], |held|);
  }

  lemma {:induction false} LazyReserveCovers(g: Graph, x: PeerId, others: seq<PeerId>, i: nat, held: seq<Reservation>,
      j: nat)
    requires Ready(g) && x in g.peers && i <= |others| && forall n | 0 <= n < |others| :: others[n] in g.peers
    requires j < |others| && (i <= j || Covered(g, x, others[j], held))
    ensures var r := LazyReserve(g, x, others, i, held); r.ok ==> Covered(r.graph, x, others[j], r.held)
    decreases |others| - i
  {
    hide FindHeld, ScanEntry, ReserveFor;
    if i < |others| {
      if Hears(g, others[i], x) {
        LazyReserveCovers(g, x, others, i + 1, held, j);
      } else {
        hide Covered;
        var (g1, slot) := ReserveFor(g, others[i], x);
        if slot.Some? {
          var h := Reservation(others[i], slot.value.0, slot.value.1);
          if j <= i { ReservationCovers(g, g1, x, others[j], held, h); }
          LazyReserveCovers(g1, x, others, i + 1, held + [h], j);
        }
      }
    }
  }

  lemma {:induction false} FindHeldGrows(held: seq<Reservation>, h: Reservation, owner: PeerId)
    ensures FindHeld(held, owner).Some? ==> FindHeld(held + [h], owner).Some?
  {
    if held != [] && held[0].owner != owner {
      FindHeldGrows(held[1..], h, owner);
      assert (held + [h])[1..] == held[1..] + [h];
    }
  }

  // --------------------------------------------------------------------- runs

  datatype Op =
    | OpRoom(r: RoomId)
    | OpSession(x: PeerId, userId: int, audience: bool)
    | OpJoin(r: RoomId, x: PeerId, accepting: set<PeerId>, abort: bool)
    | OpLeave(r: RoomId, x: PeerId)
    | OpRole(r: RoomId, x: PeerId, toAudience: bool, video: bool, screen: bool, accepting: set<PeerId>,
             acceptingLater: set<PeerId>)
    | OpPushToTalk(r: RoomId, x: PeerId, active: bool, accepting: set<PeerId>, acceptingLater: set<PeerId>)
    | OpRefresh(x: PeerId, accepting: set<PeerId>, acceptingLater: set<PeerId>)
    | OpMedia(x: PeerId, media: Media)
    | OpCapture(x: PeerId)
    | OpInstall(x: PeerId, index: nat)
    | OpAnswer(x: PeerId, index: nat)

  /** Capturing, installing and answering offers never touch an active slot. */
  lemma NegotiationKeeps(g: Graph, x: PeerId, op: RemoteSlots.Op)
    requires GraphInv(g) && x in g.peers && (op.DoCapture? || op.DoInstall? || op.DoAnswer?)
    ensures SystemInv(g.tables[x]) && GraphInv(g.(tables := g.tables[x := Step(g.tables[x], op)]))
  {
    assert SystemInv(g.tables[x]);
    StepKeepsInv(g.tables[x], op);
    var g' := g.(tables := g.tables[x := Step(g.tables[x], op)]);
    forall s, k | s in g'.receivers && k in g'.receivers[s]
      ensures EntryOk(g'.peers, g'.tables, s, k, g'.receivers[s][k])
    {
      assert EntryOk(g.peers, g.tables, s, k, g.receivers[s][k]);
    }
  }

  ghost function Negotiate(g: Graph, x: PeerId, op: RemoteSlots.Op): (g': Graph)
    requires GraphInv(g) && (op.DoCapture? || op.DoInstall? || op.DoAnswer?)
    ensures GraphInv(g')
  {
    if x !in g.peers then g
    else
      NegotiationKeeps(g, x, op);
      g.(tables := g.tables[x := Step(g.tables[x], op)])
  }

  function NewSession(g: Graph, x: PeerId, userId: int, audience: bool): Graph {
    Graph(g.peers[x := Peer(userId, None, -1, audience, false, SILENT)],
          g.tables[x := System(ClearedTable(0, 0), [])],
          g.receivers[x := map[]], g.bundles[x := map[]], g.rooms)
  }

  lemma NewSessionKeepsDuality(receivers: map<PeerId, Receivers>, bundles: map<PeerId, Bundle>, x: PeerId)
    requires Dual(receivers, bundles) && x !in receivers && x !in bundles
    ensures Dual(receivers[x := map[]], bundles[x := map[]])
  {
    var bundles' := bundles[x := map[]];
    forall s, p, k, n ensures HasRoute(bundles', p, s, k, n) <==> HasRoute(bundles, p, s, k, n) {
      if HasRoute(bundles', p, s, k, n) {
        var j :| Carries(bundles'[p], j, s, k, n); assert Carries(bundles[p], j, s, k, n);
      }
      if HasRoute(bundles, p, s, k, n) {
        var j :| Carries(bundles[p], j, s, k, n); assert Carries(bundles'[p], j, s, k, n);
      }
    }
    forall s, p, k, n ensures HasEntry(receivers[x := map[]], s, p, k, n) <==> HasEntry(receivers, s, p, k, n) { }
  }

  lemma EmptySystemInv()
    ensures SystemInv(System(ClearedTable(0, 0), [])) && ClearedTable(0, 0).Shaped()
  {
  }

  /** An entry does not mention the new session. */
  lemma EntryStays(g: Graph, g': Graph, x: PeerId, s: PeerId, k: int, e: Entry)
    requires x !in g.peers && x in g'.peers && x in g'.tables && x !in g.tables && EntryOk(g.peers, g.tables, s, k, e)
    requires g'.peers == g.peers[x := g'.peers[x]] && g'.tables == g.tables[x := g'.tables[x]]
    ensures EntryOk(g'.peers, g'.tables, s, k, e)
  {
  }

  lemma NewSessionKeepsEdges(g: Graph, x: PeerId, userId: int, audience: bool)
    requires EdgesInv(g) && x > 0 && x !in g.peers
    ensures EdgesInv(NewSession(g, x, userId, audience))
  {
    hide Dual, SystemInv, ClearedTable, EntryOk, BundleOk;
    NewSessionKeepsDuality(g.receivers, g.bundles, x);
    EmptySystemInv();
    NewBundleOk();
    var g' := NewSession(g, x, userId, audience);
    forall s, k | s in g'.receivers && k in g'.receivers[s]
      ensures EntryOk(g'.peers, g'.tables, s, k, g'.receivers[s][k])
    {
      assert EntryOk(g.peers, g.tables, s, k, g.receivers[s][k]);
      EntryStays(g, g', x, s, k, g.receivers[s][k]);
    }
    forall q | q in g'.tables ensures SystemInv(g'.tables[q]) { if q != x { assert SystemInv(g.tables[q]); } }
    forall p | p in g'.bundles ensures BundleOk(g'.bundles[p]) { if p != x { assert BundleOk(g.bundles[p]); } }
  }

  lemma NewBundleOk()
    ensures BundleOk(map[])
  {
  }

  lemma NewSessionKeeps(g: Graph, x: PeerId, userId: int, audience: bool)
    requires GraphInv(g) && x > 0 && x !in g.peers
    ensures GraphInv(NewSession(g, x, userId, audience))
  {
    NewSessionKeepsEdges(g, x, userId, audience);
    hide EdgesInv;
    var g' := NewSession(g, x, userId, audience);
    forall r | r in g'.rooms ensures RoomOk(g'.peers, r, g'.rooms[r]) {
      assert RoomOk(g.peers, r, g.rooms[r]);
      forall i | 0 <= i < |g'.rooms[r].seats| ensures SeatOk(g'.peers, r, g'.rooms[r], i) {
        assert SeatOk(g.peers, r, g.rooms[r], i);
      }
    }
    forall q | q in g'.peers
      ensures HasSeat(g'.rooms, q, g'.peers[q])
    {
      if q != x { assert HasSeat(g.rooms, q, g.peers[q]); }
    }
  }

  /** A new room: all seats free, the lowest one handed out first. */
  function EmptyRoom(): Room { Room(seq(ROOM_MAX_PEERS, _ => None), seq(ROOM_MAX_PEERS, i => ROOM_MAX_PEERS - 1 - i)) }

  lemma NewRoomKeeps(g: Graph, r: RoomId)
    requires GraphInv(g) && r !in g.rooms
    ensures GraphInv(g.(rooms := g.rooms[r := EmptyRoom()]))
  {
    var g' := g.(rooms := g.rooms[r := EmptyRoom()]);
    var room := EmptyRoom();
    forall i | 0 <= i < ROOM_MAX_PEERS ensures SeatOk(g'.peers, r, room, i) {
      assert room.free[ROOM_MAX_PEERS - 1 - i] == i;
    }
    forall r1 | r1 in g'.rooms ensures RoomOk(g'.peers, r1, g'.rooms[r1]) {
      if r1 != r { assert RoomOk(g.peers, r1, g.rooms[r1]); }
    }
    forall q | q in g'.peers ensures HasSeat(g'.rooms, q, g'.peers[q]) { assert HasSeat(g.rooms, q, g.peers[q]); }
  }

  ghost function GraphStep(g: Graph, op: Op): Graph
    requires GraphInv(g)
  {
    match op
    case OpRoom(r) => if r in g.rooms then g else g.(rooms := g.rooms[r := EmptyRoom()])
    case OpSession(x, userId, audience) => if x in g.peers || x <= 0 then g else NewSession(g, x, userId, audience)
    case OpJoin(r, x, accepting, abort) =>
      if x in g.peers && r in g.rooms then assert RoomOk(g.peers, r, g.rooms[r]); Join(g, r, x, accepting, abort).0
      else g
    case OpLeave(r, x) => if x in g.peers && r in g.rooms then Leave(g, r, x) else g
    case OpRole(r, x, toAudience, video, screen, a, b) => ChangeRole(g, r, x, toAudience, video, screen, a, b).0
    case OpPushToTalk(r, x, active, a, b) => SetPushToTalk(g, r, x, active, a, b).0
    case OpRefresh(x, a, b) => Refresh(g, x, a, b).0
    case OpMedia(x, media) => if x in g.peers then WithPeer(g, x, g.peers[x].(media := media)) else g
    case OpCapture(x) => Negotiate(g, x, DoCapture)
    case OpInstall(x, index) => Negotiate(g, x, DoInstall(index))
    case OpAnswer(x, index) => Negotiate(g, x, DoAnswer(index))
  }

  lemma GraphStepKeeps(g: Graph, op: Op)
    requires GraphInv(g)
    ensures GraphInv(GraphStep(g, op))
  {
    match op
    case OpRoom(r) => if r !in g.rooms { NewRoomKeeps(g, r); }
    case OpSession(x, userId, audience) => if x !in g.peers && x > 0 { NewSessionKeeps(g, x, userId, audience); }
    case OpJoin(r, x, accepting, abort) =>
      if x in g.peers && r in g.rooms { assert RoomOk(g.peers, r, g.rooms[r]); JoinKeeps(g, r, x, accepting, abort); }
    case OpLeave(r, x) => if x in g.peers && r in g.rooms { LeaveKeeps(g, r, x); }
    case OpRole(r, x, toAudience, video, screen, a, b) => ChangeRoleKeeps(g, r, x, toAudience, video, screen, a, b);
    case OpPushToTalk(r, x, active, a, b) => SetPushToTalkKeeps(g, r, x, active, a, b);
    case OpRefresh(x, a, b) => RefreshKeeps(g, x, a, b);
    case OpMedia(x, media) => if x in g.peers { PeerMayChange(g, x, g.peers[x].(media := media)); }
    case OpCapture(x) =>
    case OpInstall(x, index) =>
    case OpAnswer(x, index) =>
  }

  ghost function GraphRun(g: Graph, ops: seq<Op>): (r: Graph)
    requires GraphInv(g)
    ensures GraphInv(r)
    decreases |ops|
  {
    if ops == [] then g
    else
      GraphStepKeeps(g, ops[0]);
      GraphRun(GraphStep(g, ops[0]), ops[1..])
  }

  const EMPTY_GRAPH := Graph(map[], map[], map[], map[], map[])

  lemma EmptyGraphInv() ensures GraphInv(EMPTY_GRAPH) { }

  ghost function Reach(ops: seq<Op>): (r: Graph)
    ensures GraphInv(r)
  {
    EmptyGraphInv();
    GraphRun(EMPTY_GRAPH, ops)
  }

  /** After every run, `s` has an entry for `p` at slot k with generation n exactly when `p`
      has a route to `s` carrying (k, n); the slot is then active for `p` with that generation,
      and both are in one room. */
  lemma GraphDuality(ops: seq<Op>, s: PeerId, p: PeerId, k: int, n: int)
    ensures var g := Reach(ops);
      && (HasEntry(g.receivers, s, p, k, n) <==> HasRoute(g.bundles, p, s, k, n))
      && (HasRoute(g.bundles, p, s, k, n) ==>
            && p in g.peers && s in g.peers && s != p
            && Assigned(g.tables, s, p, g.peers[p].userId, k, n)
            && g.peers[s].room.Some? && g.peers[s].room == g.peers[p].room)
  {
    var g := Reach(ops);
    if HasEntry(g.receivers, s, p, k, n) { assert EntryOk(g.peers, g.tables, s, k, g.receivers[s][k]); }
  }

  /** The first of the three media lines of a slot; 0 to 2 are the session's own uplinks. */
  function FirstMid(slot: int): int { 3 + slot * 3 }

  /** Two routes to one subscriber on the same media line come from the same publisher and
      stream kind (0 audio, 1 camera, 2 screen). */
  lemma NoSharedMid(ops: seq<Op>, s: PeerId, p1: PeerId, k1: int, n1: int, c1: int, p2: PeerId, k2: int, n2: int,
                    c2: int)
    requires var g := Reach(ops); HasRoute(g.bundles, p1, s, k1, n1) && HasRoute(g.bundles, p2, s, k2, n2)
    requires 0 <= c1 < 3 && 0 <= c2 < 3 && FirstMid(k1) + c1 == FirstMid(k2) + c2
    ensures p1 == p2 && k1 == k2 && n1 == n2 && c1 == c2 && FirstMid(k1) + c1 > 2
  {
    GraphDuality(ops, s, p1, k1, n1);
    GraphDuality(ops, s, p2, k2, n2);
  }
}

/**
 A run that leaves a slot without an entry: two sessions that joined while the other one was not
 accepting work, and a refresh between whose loops a session stops accepting it.
 */
module RoomOrphanRun {
  import opened Wrappers
  import opened RemoteSlots
  import opened MediaGraph
  import opened RoomOperations
  import opened RoomRefresh
  import opened RoomRuns
  import opened RoomOrphans

  const ROOM: RoomId := 0
  const LISTENER: PeerId := 1
  const PUBLISHER: PeerId := 2

  function Arrival(): seq<RoomRuns.Op> {
    [OpRoom(ROOM), OpSession(LISTENER, 1, false), OpSession(PUBLISHER, 2, false),
     OpJoin(ROOM, LISTENER, {LISTENER}, false), OpJoin(ROOM, PUBLISHER, {PUBLISHER}, false)]
  }

  const LOSING := OpRefresh(PUBLISHER, {LISTENER, PUBLISHER}, {PUBLISHER})

  /** Both sessions exist, and neither has reserved a slot. */
  ghost predicate Blank(g: Graph) {
    && g.peers.Keys == g.tables.Keys == g.receivers.Keys == {LISTENER, PUBLISHER} && ROOM in g.rooms
    && !g.peers[PUBLISHER].audience
    && forall q | q in g.peers :: g.tables[q] == System(ClearedTable(0, 0), []) && g.receivers[q] == map[]
  }

  lemma BlankHasNone(g: Graph)
    requires Blank(g)
    ensures NoOrphans(g)
  {
  }

  lemma {:induction false} NobodyElse(seats: seq<Option<PeerId>>, x: PeerId, from: nat)
    requires from <= |seats|
    ensures Others(seats, x, {x}, from) == []
    decreases |seats| - from
  {
    if from < |seats| { NobodyElse(seats, x, from + 1); }
  }

  /** Nobody else accepts work, so the joiner just takes a seat. */
  lemma LonelyJoin(g: Graph, x: PeerId)
    requires GraphInv(g) && Blank(g) && x in g.peers && g.peers[x].room.None? && g.rooms[ROOM].free != []
    ensures var g' := GraphStep(g, OpJoin(ROOM, x, {x}, false));
      && Blank(g') && g' == Seat(g, ROOM, x) && g'.peers[x].room == Some(ROOM)
      && forall q | q in g.peers && q != x :: g'.peers[q] == g.peers[q]
  {
    hide EdgesInv, RoomsInv, Seat;
    RoomIsOk(g, ROOM);
    EdgesReady(g);
    NobodyElse(g.rooms[ROOM].seats, x, 0);
    SeatKeeps(g, ROOM, x);
    assert AttachTargets(Seat(g, ROOM, x), x, [], [], 0) == Some(Seat(g, ROOM, x));
    assert Join(g, ROOM, x, {x}, false).0 == Seat(g, ROOM, x);
    SeatKeepsRoom(g, x);
  }

  lemma SeatKeepsRoom(g: Graph, x: PeerId)
    requires ROOM in g.rooms && g.rooms[ROOM].free != [] && x in g.peers
    ensures ROOM in Seat(g, ROOM, x).rooms
  {
  }

  lemma SeatsLeft(g: Graph, x: PeerId)
    requires ROOM in g.rooms && g.rooms[ROOM] == EmptyRoom() && x in g.peers
    ensures Seat(g, ROOM, x).rooms[ROOM].free != []
  {
  }

  /** The publisher and its listener sit in one room and do not know each other. */
  lemma LosesListener(g: Graph)
    requires GraphInv(g) && Blank(g) && g.peers[PUBLISHER].room == g.peers[LISTENER].room == Some(ROOM)
    ensures !NoOrphans(GraphStep(g, LOSING))
  {
    hide EdgesInv, RoomsInv, Others, ReserveFor;
    SeatedInRoom(g, PUBLISHER);
    var both := {LISTENER, PUBLISHER};
    ListenersAreRoommates(g, PUBLISHER, both);
    ListenersAccept(g, PUBLISHER, both);
    var others := Listeners(g, PUBLISHER, both);
    OnlyOne(others, LISTENER);
    EdgesReady(g);
    FindsSlot(g);
    BlankHasNone(g);
    assert !Hears(g, LISTENER, PUBLISHER);
    assert LazyReserve(g, PUBLISHER, others, 0, []).ok;
    assert !NoneLost(g, PUBLISHER, true, both, {PUBLISHER});
    StepOrphans(g, LOSING);
  }

  lemma OnlyOne(qs: seq<PeerId>, q: PeerId)
    requires q in qs && (forall p | p in qs :: p == q) && forall i, j | 0 <= i < j < |qs| :: qs[i] != qs[j]
    ensures qs == [q]
  {
    assert qs[0] in qs && qs[|qs| - 1] in qs;
  }

  lemma SeatedInRoom(g: Graph, x: PeerId)
    requires RoomsInv(g.peers, g.rooms) && x in g.peers && g.peers[x].room.Some?
    ensures InRoom(g, x)
  {
    assert HasSeat(g.rooms, x, g.peers[x]);
  }

  lemma FindsSlot(g: Graph)
    requires Ready(g) && Blank(g)
    ensures ReserveFor(g, LISTENER, PUBLISHER).1.Some?
  {
    var t := g.tables[LISTENER].table;
    assert t.slots[0].state.Free?;
  }

  lemma ThreeSteps(g: Graph)
    requires g == EMPTY_GRAPH && GraphInv(g)
    ensures var g1 := GraphStep(g, OpRoom(ROOM));
      && GraphInv(g1) && var g2 := GraphStep(g1, OpSession(LISTENER, 1, false));
      && GraphInv(g2) && var g3 := GraphStep(g2, OpSession(PUBLISHER, 2, false));
      && GraphInv(g3) && Blank(g3) && g3.rooms[ROOM] == EmptyRoom() && EmptyRoom().free != []
      && g3.peers[LISTENER].room.None? && g3.peers[PUBLISHER].room.None?
  {
    hide EdgesInv, RoomsInv;
    var g1 := GraphStep(g, OpRoom(ROOM));
    GraphStepKeeps(g, OpRoom(ROOM));
    GraphStepKeeps(g1, OpSession(LISTENER, 1, false));
    GraphStepKeeps(GraphStep(g1, OpSession(LISTENER, 1, false)), OpSession(PUBLISHER, 2, false));
  }

  lemma TwoJoins(g: Graph)
    requires GraphInv(g) && Blank(g) && g.rooms[ROOM] == EmptyRoom() && EmptyRoom().free != []
    requires g.peers[LISTENER].room.None? && g.peers[PUBLISHER].room.None?
    ensures var g1 := GraphStep(g, OpJoin(ROOM, LISTENER, {LISTENER}, false));
      && GraphInv(g1) && var g2 := GraphStep(g1, OpJoin(ROOM, PUBLISHER, {PUBLISHER}, false));
      && GraphInv(g2) && Blank(g2) && g2.peers[PUBLISHER].room == g2.peers[LISTENER].room == Some(ROOM)
  {
    hide GraphInv, GraphStep, Seat;
    var g1 := GraphStep(g, OpJoin(ROOM, LISTENER, {LISTENER}, false));
    GraphStepKeeps(g, OpJoin(ROOM, LISTENER, {LISTENER}, false));
    LonelyJoin(g, LISTENER);
    SeatsLeft(g, LISTENER);
    LonelyJoin(g1, PUBLISHER);
    GraphStepKeeps(g1, OpJoin(ROOM, PUBLISHER, {PUBLISHER}, false));
  }

  lemma RunFirst(g: Graph, op: RoomRuns.Op, ops: seq<RoomRuns.Op>)
    requires GraphInv(g)
    ensures GraphInv(GraphStep(g, op)) && GraphRun(g, [op] + ops) == GraphRun(GraphStep(g, op), ops)
  {
    GraphStepKeeps(g, op);
    assert ([op] + ops)[1..] == ops;
  }

  /** The run ends with an active slot that carries no entry. */
  lemma RefreshLeavesAnOrphan()
    ensures !NoOrphans(Reach(Arrival() + [LOSING]))
  {
    hide GraphInv, GraphStep, GraphRun, Blank, NoOrphans;
    EmptyGraphInv();
    var ops := Arrival() + [LOSING];
    ThreeSteps(EMPTY_GRAPH);
    RunFirst(EMPTY_GRAPH, ops[0], ops[1..]);
    var g1 := GraphStep(EMPTY_GRAPH, ops[0]);
    RunFirst(g1, ops[1], ops[2..]);
    var g2 := GraphStep(g1, ops[1]);
    RunFirst(g2, ops[2], ops[3..]);
    var g3 := GraphStep(g2, ops[2]);
    TwoJoins(g3);
    RunFirst(g3, ops[3], ops[4..]);
    var g4 := GraphStep(g3, ops[3]);
    RunFirst(g4, ops[4], ops[5..]);
    var g5 := GraphStep(g4, ops[4]);
    RunFirst(g5, ops[5], []);
    LosesListener(g5);
    RunNone(GraphStep(g5, LOSING));
    assert ops == [ops[0]] + ops[1..] && ops[1..] == [ops[1]] + ops[2..] && ops[2..] == [ops[2]] + ops[3..];
    assert ops[3..] == [ops[3]] + ops[4..] && ops[4..] == [ops[4]] + ops[5..] && ops[5..] == [ops[5]] + [];
  }

  lemma RunNone(g: Graph)
    requires GraphInv(g)
    ensures GraphRun(g, []) == g
  {
  }
}

/**
 The media graph of all rooms (src/room/room_media_graph.c).  A subscriber keeps receiver
 entries, one per publisher it hears, keyed by its own remote slot; a publisher keeps a
 fanout bundle of routes, one per subscriber.  Room operations change both sides; they
 run under the room lock, so each is one atomic step.

 The state keeps one map per session field, all with the same keys.
 */
module MediaGraph {
  import opened Wrappers
  import opened RemoteSlots

  type PeerId = int
  type RoomId = int

  const ROOM_MAX_PEERS: int := 300

  /** What a publisher sends; copied into entries and routes. */
  datatype Media = Media(audioSsrc: nat, videoSsrc: nat, screenSsrc: nat,
                         audioActive: bool, videoActive: bool, screenActive: bool)

  const SILENT := Media(0, 0, 0, false, false, false)

  datatype Peer = Peer(userId: int, room: Option<RoomId>, roomSlot: int, audience: bool, pushToTalk: bool, media: Media)
  datatype Entry = Entry(publisher: PeerId, remoteSlot: int, generation: int, media: Media)
  datatype Route = Route(subscriber: PeerId, remoteSlot: int, generation: int, media: Media)
  datatype Room = Room(seats: seq<Option<PeerId>>, free: seq<int>)

  type Receivers = map<int, Entry>
  type Bundle = map<int, Route>

  datatype Graph = Graph(
    peers: map<PeerId, Peer>,
    tables: map<PeerId, System>,
    receivers: map<PeerId, Receivers>,
    bundles: map<PeerId, Bundle>,
    rooms: map<RoomId, Room>)
  {
    ghost predicate Keyed() {
      tables.Keys == peers.Keys && receivers.Keys == peers.Keys && bundles.Keys == peers.Keys
    }
  }

  // ------------------------------------------------------------------ lookups

  /** The slot of `p`'s entry, or MAX_REMOTE_SLOTS. */
  function ScanEntry(receivers: Receivers, p: PeerId, from: int): (k: int)
    requires 0 <= from <= MAX_REMOTE_SLOTS
    ensures from <= k <= MAX_REMOTE_SLOTS
    ensures k < MAX_REMOTE_SLOTS ==> k in receivers && receivers[k].publisher == p
    ensures forall i | from <= i < k && i in receivers :: receivers[i].publisher != p
    decreases MAX_REMOTE_SLOTS - from
  {
    if from == MAX_REMOTE_SLOTS || (from in receivers && receivers[from].publisher == p) then from
    else ScanEntry(receivers, p, from + 1)
  }

  /** The bundle index of the route to `s`, or MAX_REMOTE_SLOTS. */
  function ScanRoute(bundle: Bundle, s: PeerId, from: int): (j: int)
    requires 0 <= from <= MAX_REMOTE_SLOTS
    ensures from <= j <= MAX_REMOTE_SLOTS
    ensures j < MAX_REMOTE_SLOTS ==> j in bundle && bundle[j].subscriber == s
    ensures forall i | from <= i < j && i in bundle :: bundle[i].subscriber != s
    decreases MAX_REMOTE_SLOTS - from
  {
    if from == MAX_REMOTE_SLOTS || (from in bundle && bundle[from].subscriber == s) then from
    else ScanRoute(bundle, s, from + 1)
  }

  function FirstOpen(bundle: Bundle, from: int): (j: int)
    requires 0 <= from <= MAX_REMOTE_SLOTS
    ensures from <= j <= MAX_REMOTE_SLOTS
    ensures j < MAX_REMOTE_SLOTS ==> j !in bundle
    ensures forall i | from <= i < j :: i in bundle
    decreases MAX_REMOTE_SLOTS - from
  {
    if from == MAX_REMOTE_SLOTS || from !in bundle then from else FirstOpen(bundle, from + 1)
  }

  // ---------------------------------------------------------------- invariant

  ghost predicate HasEntry(receivers: map<PeerId, Receivers>, s: PeerId, p: PeerId, k: int, g: int) {
    s in receivers && k in receivers[s] && receivers[s][k].publisher == p && receivers[s][k].generation == g
  }

  ghost predicate Carries(bundle: Bundle, j: int, s: PeerId, k: int, g: int) {
    j in bundle && bundle[j].subscriber == s && bundle[j].remoteSlot == k && bundle[j].generation == g
  }

  ghost predicate HasRoute(bundles: map<PeerId, Bundle>, p: PeerId, s: PeerId, k: int, g: int) {
    p in bundles && exists j :: Carries(bundles[p], j, s, k, g)
  }

  /** Subscribers' entries and publishers' routes say the same. */
  ghost predicate Dual(receivers: map<PeerId, Receivers>, bundles: map<PeerId, Bundle>) {
    forall s, p, k, g :: HasEntry(receivers, s, p, k, g) <==> HasRoute(bundles, p, s, k, g)
  }

  /** Subscriber `s` has given slot `k` to publisher `p`, a user `userId`, under generation `g`. */
  ghost predicate Assigned(tables: map<PeerId, System>, s: PeerId, p: PeerId, userId: int, k: int, g: int) {
    && s in tables && 0 <= k < MAX_REMOTE_SLOTS == |tables[s].table.slots|
    && var slot := tables[s].table.slots[k];
    slot.state.Active? && slot.generation == g && slot.peerId == p && slot.userId == userId
  }

  ghost predicate EntryOk(peers: map<PeerId, Peer>, tables: map<PeerId, System>, s: PeerId, k: int, e: Entry) {
    && e.remoteSlot == k
    && s in peers && e.publisher in peers && e.publisher != s
    && peers[s].room.Some? && peers[s].room == peers[e.publisher].room
    && Assigned(tables, s, e.publisher, peers[e.publisher].userId, k, e.generation)
  }

  ghost predicate EntriesOk(peers: map<PeerId, Peer>, tables: map<PeerId, System>, receivers: map<PeerId, Receivers>) {
    forall s, k | s in receivers && k in receivers[s] :: EntryOk(peers, tables, s, k, receivers[s][k])
  }

  ghost predicate BundleOk(bundle: Bundle) {
    && (forall j | j in bundle :: 0 <= j < MAX_REMOTE_SLOTS)
    && (forall i, j | i in bundle && j in bundle && i != j :: bundle[i].subscriber != bundle[j].subscriber)
  }

  ghost predicate TablesOk(tables: map<PeerId, System>) {
    forall q {:trigger SystemInv(tables[q])} | q in tables :: SystemInv(tables[q])
  }

  ghost predicate Ready(g: Graph) {
    g.Keyed() && (forall q | q in g.peers :: q > 0 && g.tables[q].table.Shaped())
  }

  ghost predicate EdgesInv(g: Graph) {
    && Ready(g)
    && TablesOk(g.tables)
    && EntriesOk(g.peers, g.tables, g.receivers)
    && Dual(g.receivers, g.bundles)
    && (forall p {:trigger BundleOk(g.bundles[p])} | p in g.bundles :: BundleOk(g.bundles[p]))
  }

  ghost predicate SeatOk(peers: map<PeerId, Peer>, r: RoomId, room: Room, i: int)
    requires 0 <= i < |room.seats|
  {
    match room.seats[i]
    case None => i in room.free
    case Some(q) => q in peers && peers[q].room == Some(r) && peers[q].roomSlot == i && i !in room.free
  }

  ghost predicate RoomOk(peers: map<PeerId, Peer>, r: RoomId, room: Room) {
    && |room.seats| <= ROOM_MAX_PEERS
    && (forall i | 0 <= i < |room.seats| :: SeatOk(peers, r, room, i))
    && (forall i | 0 <= i < |room.free| :: 0 <= room.free[i] < |room.seats|)
    && (forall i, j | 0 <= i < j < |room.free| :: room.free[i] != room.free[j])
  }

  ghost predicate HasSeat(rooms: map<RoomId, Room>, q: PeerId, peer: Peer) {
    peer.room.Some? ==>
      && peer.room.value in rooms
      && 0 <= peer.roomSlot < |rooms[peer.room.value].seats|
      && rooms[peer.room.value].seats[peer.roomSlot] == Some(q)
  }

  ghost predicate RoomsInv(peers: map<PeerId, Peer>, rooms: map<RoomId, Room>) {
    && (forall r | r in rooms :: RoomOk(peers, r, rooms[r]))
    && (forall q | q in peers :: HasSeat(rooms, q, peers[q]))
  }

  ghost predicate GraphInv(g: Graph) {
    EdgesInv(g) && RoomsInv(g.peers, g.rooms)
  }

  ghost predicate NoEntry(receivers: Receivers, p: PeerId) {
    forall k | k in receivers :: receivers[k].publisher != p
  }

  // -------------------------------------------------------- pieces of the operations

  datatype Reservation = Reservation(owner: PeerId, slot: nat, generation: nat)

  function WithTable(g: Graph, q: PeerId, t: Table): Graph
    requires q in g.tables
  {
    g.(tables := g.tables[q := g.tables[q].(table := t)])
  }

  function ReserveFor(g: Graph, owner: PeerId, p: PeerId): (r: (Graph, Option<(nat, nat)>))
    requires Ready(g) && owner in g.peers && p in g.peers
    ensures Ready(r.0) && r.0 == g.(tables := r.0.tables)
  {
    var (t, r) := Reserve(g.tables[owner].table, g.peers[p].userId, p);
    (WithTable(g, owner, t), r)
  }

  function RetireFor(g: Graph, h: Reservation): (r: (Graph, bool))
    requires Ready(g) && h.owner in g.peers
    ensures Ready(r.0) && r.0 == g.(tables := r.0.tables)
  {
    var (t, matched) := Retire(g.tables[h.owner].table, h.slot, h.generation);
    (WithTable(g, h.owner, t), matched)
  }

  function SetEntry(g: Graph, s: PeerId, k: int, e: Entry): Graph
    requires s in g.receivers
  {
    g.(receivers := g.receivers[s := g.receivers[s][k := e]])
  }

  function SetRoute(g: Graph, p: PeerId, j: int, r: Route): Graph
    requires p in g.bundles
  {
    g.(bundles := g.bundles[p := g.bundles[p][j := r]])
  }

  /** Where a publisher's route to `s` goes: its place, or the first open one. */
  function RouteIndex(bundle: Bundle, s: PeerId): int {
    var found := ScanRoute(bundle, s, 0);
    if found < MAX_REMOTE_SLOTS then found else FirstOpen(bundle, 0)
  }

  /** `fanout_change_from` for an addition: `p`'s route to `s` is set from `s`'s current
      entry; None when there is no entry or the bundle is full. */
  function FanoutAdd(g: Graph, p: PeerId, s: PeerId): (r: Option<Graph>)
    requires g.Keyed() && p in g.peers && s in g.peers
    ensures r.Some? ==> r.value.Keyed() && r.value == g.(bundles := r.value.bundles)
  {
    var j := RouteIndex(g.bundles[p], s);
    var k := ScanEntry(g.receivers[s], p, 0);
    if j == MAX_REMOTE_SLOTS || k == MAX_REMOTE_SLOTS then None
    else
      var e := g.receivers[s][k];
      Some(SetRoute(g, p, j, Route(s, e.remoteSlot, e.generation, g.peers[p].media)))
  }

  /** `snapshot_build_at` and the fanout update: subscriber `s` gets an entry for `p` at `k`. */
  function Attach(g: Graph, s: PeerId, p: PeerId, k: int, generation: int): (r: Option<Graph>)
    requires g.Keyed() && p in g.peers && s in g.peers
    ensures r.Some? ==> r.value.Keyed() && r.value == g.(receivers := r.value.receivers, bundles := r.value.bundles)
  {
    if ScanEntry(g.receivers[s], p, 0) < MAX_REMOTE_SLOTS || k in g.receivers[s] then None
    else FanoutAdd(SetEntry(g, s, k, Entry(p, k, generation, g.peers[p].media)), p, s)
  }

  // ------------------------------------------------ what the pieces keep

  /** A slot table may change as long as slots that carry an entry keep their assignment. */
  lemma TableMayChange(g: Graph, q: PeerId, t: Table)
    requires EdgesInv(g) && q in g.peers && SystemInv(g.tables[q].(table := t))
    requires forall k | k in g.receivers[q] && 0 <= k < MAX_REMOTE_SLOTS :: t.slots[k] == g.tables[q].table.slots[k]
    ensures EdgesInv(WithTable(g, q, t))
  {
    var g' := WithTable(g, q, t);
    forall s, k | s in g'.receivers && k in g'.receivers[s]
      ensures EntryOk(g'.peers, g'.tables, s, k, g'.receivers[s][k])
    {
      assert EntryOk(g.peers, g.tables, s, k, g.receivers[s][k]);
    }
  }

  lemma ReserveForKeeps(g: Graph, owner: PeerId, p: PeerId)
    requires EdgesInv(g) && owner in g.peers && p in g.peers && NoEntry(g.receivers[owner], p)
    ensures var (g', r) := ReserveFor(g, owner, p);
      && EdgesInv(g')
      && (r.Some? ==>
            Assigned(g'.tables, owner, p, g.peers[p].userId, r.value.0, r.value.1) && r.value.0 !in g.receivers[owner])
      && (forall s, q, u, k, n | Assigned(g.tables, s, q, u, k, n) :: Assigned(g'.tables, s, q, u, k, n))
  {
    assert SystemInv(g.tables[owner]);
    var t := g.tables[owner].table;
    ReserveKeepsInv(t, g.peers[p].userId, p);
    var (t', r) := Reserve(t, g.peers[p].userId, p);
    forall k | k in g.receivers[owner] && 0 <= k < MAX_REMOTE_SLOTS
      ensures t'.slots[k] == t.slots[k]
      ensures r.Some? ==> r.value.0 != k
    {
      assert EntryOk(g.peers, g.tables, owner, k, g.receivers[owner][k]);
    }
    TableMayChange(g, owner, t');
  }

  lemma RetireForKeeps(g: Graph, r: Reservation)
    requires EdgesInv(g) && r.owner in g.peers && r.slot !in g.receivers[r.owner]
    ensures EdgesInv(RetireFor(g, r).0)
  {
    assert SystemInv(g.tables[r.owner]);
    var t := g.tables[r.owner].table;
    RetireKeepsInv(t, r.slot, r.generation);
    TableMayChange(g, r.owner, Retire(t, r.slot, r.generation).0);
  }

  /** More values than places: two of them share one. */
  lemma {:induction false} Pigeonhole(f: seq<int>, n: nat)
    requires |f| > n > 0 && forall i | 0 <= i < |f| :: 0 <= f[i] < n
    ensures exists i, j | 0 <= i < j < |f| :: f[i] == f[j]
    decreases n
  {
    var last := |f| - 1;
    if !exists i | 0 <= i < last :: f[i] == f[last] {
      assert f[0] != f[last];
      // Close the place of the last value up with the highest one.
      var h := seq(last, i requires 0 <= i < last => if f[i] == n - 1 then f[last] else f[i]);
      Pigeonhole(h, n - 1);
      var i, j :| 0 <= i < j < |h| && h[i] == h[j];
      assert f[i] == f[j];
    }
  }

  /** A route leads to a subscriber of the same room. */
  lemma RouteLeadsToRoommate(g: Graph, p: PeerId, j: int)
    requires EdgesInv(g) && p in g.peers && j in g.bundles[p]
    ensures var s := g.bundles[p][j].subscriber;
      s in g.peers && s != p && g.peers[s].room.Some? && g.peers[s].room == g.peers[p].room
  {
    var r := g.bundles[p][j];
    assert Carries(g.bundles[p], j, r.subscriber, r.remoteSlot, r.generation);
    assert HasRoute(g.bundles, p, r.subscriber, r.remoteSlot, r.generation);
    assert HasEntry(g.receivers, r.subscriber, p, r.remoteSlot, r.generation);
    assert EntryOk(g.peers, g.tables, r.subscriber, r.remoteSlot, g.receivers[r.subscriber][r.remoteSlot]);
  }

  /** Distinct sessions of one room sit on distinct seats, so there are at most as many as seats. */
  lemma RoommatesFit(peers: map<PeerId, Peer>, rooms: map<RoomId, Room>, mates: seq<PeerId>, r: RoomId)
    requires RoomsInv(peers, rooms) && mates != []
    requires forall i | 0 <= i < |mates| :: mates[i] in peers && peers[mates[i]].room == Some(r)
    requires forall i, j | 0 <= i < j < |mates| :: mates[i] != mates[j]
    ensures |mates| <= ROOM_MAX_PEERS
  {
    var places := seq(|mates|, i requires 0 <= i < |mates| => peers[mates[i]].roomSlot);
    forall i | 0 <= i < |mates|
      ensures r in rooms && 0 <= places[i] < |rooms[r].seats| && rooms[r].seats[places[i]] == Some(mates[i])
    {
      assert HasSeat(rooms, mates[i], peers[mates[i]]);
    }
    assert 0 <= places[0] < |rooms[r].seats|;
    if |mates| > ROOM_MAX_PEERS {
      assert RoomOk(peers, r, rooms[r]);
      Pigeonhole(places, |rooms[r].seats|);
    }
  }

  /** A room has too few seats to fill the bundle of a publisher that has no route to `s`. */
  lemma BundleHasRoom(g: Graph, p: PeerId, s: PeerId)
    requires GraphInv(g) && p in g.peers && s in g.peers && p != s
    requires g.peers[s].room.Some? && g.peers[s].room == g.peers[p].room
    requires forall j | j in g.bundles[p] :: g.bundles[p][j].subscriber != s
    ensures FirstOpen(g.bundles[p], 0) < MAX_REMOTE_SLOTS
  {
    if FirstOpen(g.bundles[p], 0) == MAX_REMOTE_SLOTS {
      var subscribers := FullBundle(g.bundles[p]);
      forall j | 0 <= j < MAX_REMOTE_SLOTS
        ensures subscribers[j] in g.peers && subscribers[j] != p && subscribers[j] != s
        ensures g.peers[subscribers[j]].room == g.peers[p].room
      {
        RouteLeadsToRoommate(g, p, j);
      }
      RoommatesFit(g.peers, g.rooms, subscribers + [p, s], g.peers[p].room.value);
    }
  }

  lemma FullBundle(bundle: Bundle) returns (subscribers: seq<PeerId>)
    requires BundleOk(bundle) && forall j | 0 <= j < MAX_REMOTE_SLOTS :: j in bundle
    ensures |subscribers| == MAX_REMOTE_SLOTS
    ensures forall j | 0 <= j < MAX_REMOTE_SLOTS :: subscribers[j] == bundle[j].subscriber
    ensures forall i, j | 0 <= i < j < MAX_REMOTE_SLOTS :: subscribers[i] != subscribers[j]
  {
    subscribers := seq(MAX_REMOTE_SLOTS, j requires 0 <= j < MAX_REMOTE_SLOTS => bundle[j].subscriber);
  }

  /** Adding an entry adds exactly that entry. */
  lemma EntryAdded(receivers: map<PeerId, Receivers>, s: PeerId, k: int, e: Entry)
    requires s in receivers && k !in receivers[s]
    ensures var receivers' := receivers[s := receivers[s][k := e]];
      forall s1, p1, k1, g1 :: HasEntry(receivers', s1, p1, k1, g1) <==>
        (HasEntry(receivers, s1, p1, k1, g1) || (s1, p1, k1, g1) == (s, e.publisher, k, e.generation))
  {
  }

  /** Setting a route where there was none to its subscriber adds exactly that route. */
  lemma RouteAdded(bundles: map<PeerId, Bundle>, p: PeerId, j: int, r: Route)
    requires p in bundles && j !in bundles[p]
    ensures var bundles' := bundles[p := bundles[p][j := r]];
      forall s1, p1, k1, g1 :: HasRoute(bundles', p1, s1, k1, g1) <==>
        (HasRoute(bundles, p1, s1, k1, g1) || (s1, p1, k1, g1) == (r.subscriber, p, r.remoteSlot, r.generation))
  {
    var bundles' := bundles[p := bundles[p][j := r]];
    assert Carries(bundles'[p], j, r.subscriber, r.remoteSlot, r.generation);
    forall s1, p1, k1, g1 | HasRoute(bundles, p1, s1, k1, g1) ensures HasRoute(bundles', p1, s1, k1, g1) {
      var i :| Carries(bundles[p1], i, s1, k1, g1);
      assert Carries(bundles'[p1], i, s1, k1, g1);
    }
    forall s1, p1, k1, g1
      | HasRoute(bundles', p1, s1, k1, g1) && (s1, p1, k1, g1) != (r.subscriber, p, r.remoteSlot, r.generation)
      ensures HasRoute(bundles, p1, s1, k1, g1)
    {
      var i :| Carries(bundles'[p1], i, s1, k1, g1);
      assert Carries(bundles[p1], i, s1, k1, g1);
    }
  }

  /** Publishers without an entry at `s` have no route to `s`. */
  lemma NoEntryNoRoute(g: Graph, s: PeerId, p: PeerId)
    requires EdgesInv(g) && s in g.peers && p in g.peers && NoEntry(g.receivers[s], p)
    ensures forall j | j in g.bundles[p] :: g.bundles[p][j].subscriber != s
  {
    forall j | j in g.bundles[p] ensures g.bundles[p][j].subscriber != s {
      var r := g.bundles[p][j];
      assert Carries(g.bundles[p], j, r.subscriber, r.remoteSlot, r.generation);
      assert HasRoute(g.bundles, p, r.subscriber, r.remoteSlot, r.generation);
      assert HasEntry(g.receivers, r.subscriber, p, r.remoteSlot, r.generation);
    }
  }

  /** The subscriber's table, the rooms and the missing entry say that `s` may attach to `p` at `k`. */
  ghost predicate Attachable(g: Graph, s: PeerId, p: PeerId, k: int, generation: int) {
    && s in g.peers && p in g.peers && s in g.receivers && s != p
    && g.peers[s].room.Some? && g.peers[s].room == g.peers[p].room
    && NoEntry(g.receivers[s], p) && k !in g.receivers[s]
    && Assigned(g.tables, s, p, g.peers[p].userId, k, generation)
  }

  function Edge(g: Graph, s: PeerId, p: PeerId, k: int, generation: int): (r: Graph)
    requires g.Keyed() && s in g.peers && p in g.peers
    ensures r.Keyed() && r == g.(receivers := r.receivers, bundles := r.bundles)
    ensures r.receivers == g.receivers[s := g.receivers[s][k := Entry(p, k, generation, g.peers[p].media)]]
  {
    var media := g.peers[p].media;
    SetRoute(SetEntry(g, s, k, Entry(p, k, generation, media)), p, FirstOpen(g.bundles[p], 0),
             Route(s, k, generation, media))
  }

  /** The publisher has no route to `s` yet, and a place for one. */
  lemma PlaceForRoute(g: Graph, s: PeerId, p: PeerId, k: int, generation: int)
    requires GraphInv(g) && Attachable(g, s, p, k, generation)
    ensures g.Keyed() && 0 <= k < MAX_REMOTE_SLOTS && FirstOpen(g.bundles[p], 0) < MAX_REMOTE_SLOTS
    ensures forall j | j in g.bundles[p] :: g.bundles[p][j].subscriber != s
  {
    NoEntryNoRoute(g, s, p);
    BundleHasRoom(g, p, s);
  }

  /** Attaching never fails: the bundle always has an open place. */
  lemma AttachAddsEdge(g: Graph, s: PeerId, p: PeerId, k: int, generation: int)
    requires GraphInv(g) && Attachable(g, s, p, k, generation)
    ensures FirstOpen(g.bundles[p], 0) < MAX_REMOTE_SLOTS
    ensures Attach(g, s, p, k, generation) == Some(Edge(g, s, p, k, generation))
  {
    hide GraphInv, Assigned;
    PlaceForRoute(g, s, p, k, generation);
    var g1 := SetEntry(g, s, k, Entry(p, k, generation, g.peers[p].media));
    assert ScanEntry(g1.receivers[s], p, 0) == k by { assert g1.receivers[s][k].publisher == p; }
    assert ScanRoute(g1.bundles[p], s, 0) == MAX_REMOTE_SLOTS;
  }

  lemma BundleGrows(bundle: Bundle, j: int, r: Route)
    requires BundleOk(bundle) && 0 <= j < MAX_REMOTE_SLOTS && j !in bundle
    requires forall i | i in bundle :: bundle[i].subscriber != r.subscriber
    ensures BundleOk(bundle[j := r])
  {
  }

  lemma EntriesGrow(g: Graph, s: PeerId, p: PeerId, k: int, generation: int)
    requires EdgesInv(g) && Attachable(g, s, p, k, generation)
    ensures EntriesOk(g.peers, g.tables, SetEntry(g, s, k, Entry(p, k, generation, g.peers[p].media)).receivers)
  {
    var receivers' := SetEntry(g, s, k, Entry(p, k, generation, g.peers[p].media)).receivers;
    forall s1, k1 | s1 in receivers' && k1 in receivers'[s1]
      ensures EntryOk(g.peers, g.tables, s1, k1, receivers'[s1][k1])
    {
      if (s1, k1) != (s, k) { assert EntryOk(g.peers, g.tables, s1, k1, g.receivers[s1][k1]); }
    }
  }

  lemma EdgeKeepsInv(g: Graph, s: PeerId, p: PeerId, k: int, generation: int)
    requires EdgesInv(g) && Attachable(g, s, p, k, generation) && FirstOpen(g.bundles[p], 0) < MAX_REMOTE_SLOTS
    ensures EdgesInv(Edge(g, s, p, k, generation))
  {
    var g' := Edge(g, s, p, k, generation);
    var media := g.peers[p].media;
    var j, r := FirstOpen(g.bundles[p], 0), Route(s, k, generation, media);
    assert BundleOk(g'.bundles[p]) by {
      NoEntryNoRoute(g, s, p);
      BundleGrows(g.bundles[p], j, r);
    }
    assert Dual(g'.receivers, g'.bundles) by {
      EntryAdded(g.receivers, s, k, Entry(p, k, generation, media));
      RouteAdded(g.bundles, p, j, r);
    }
    EntriesGrow(g, s, p, k, generation);
  }

  /** Attaching succeeds, keeps the invariant and adds one entry: `s` hears `p` at `k`. */
  lemma AttachKeeps(g: Graph, s: PeerId, p: PeerId, k: int, generation: int)
    requires GraphInv(g) && Attachable(g, s, p, k, generation)
    ensures Attach(g, s, p, k, generation).Some?
    ensures var g' := Attach(g, s, p, k, generation).value;
      && GraphInv(g') && g'.Keyed() && HasEntry(g'.receivers, s, p, k, generation)
      && (forall q | q in g.peers && q != s :: g'.receivers[q] == g.receivers[q])
      && (forall i | i in g'.receivers[s] :: i == k || i in g.receivers[s])
      && (forall q | q != p && NoEntry(g.receivers[s], q) :: NoEntry(g'.receivers[s], q))
      && (forall q, i, n | q != p && HasEntry(g.receivers, s, q, i, n) :: HasEntry(g'.receivers, s, q, i, n))
  {
    AttachAddsEdge(g, s, p, k, generation);
    EdgeKeepsInv(g, s, p, k, generation);
  }
}

/** Role changes, push-to-talk and stream refreshes: a publisher's entries and routes are
    brought up to date, and missing ones are added when it should be heard. */
module RoomRefresh {
  import opened Wrappers
  import opened RemoteSlots
  import opened MediaGraph
  import opened RoomOperations

  /** Reserves a slot for `x` at every session that has no entry for it yet. */
  function LazyReserve(g: Graph, x: PeerId, others: seq<PeerId>, i: nat, held: seq<Reservation>): (r: Reserved)
    requires Ready(g) && x in g.peers && i <= |others| && forall j | 0 <= j < |others| :: others[j] in g.peers
    ensures Ready(r.graph) && r.graph == g.(tables := r.graph.tables)
    ensures forall h | h in r.held :: h in held || h.owner in g.peers
    decreases |others| - i
  {
    if i == |others| then Reserved(g, held, [], true)
    else if Hears(g, others[i], x) then LazyReserve(g, x, others, i + 1, held)
    else
      var (g1, slot) := ReserveFor(g, others[i], x);
      if slot.None? then Reserved(g1, held, [], false)
      else LazyReserve(g1, x, others, i + 1, held + [Reservation(others[i], slot.value.0, slot.value.1)])
  }

  function FindHeld(held: seq<Reservation>, owner: PeerId): (r: Option<Reservation>)
    ensures r.Some? ==> r.value in held && r.value.owner == owner
  {
    if held == [] then None else if held[0].owner == owner then Some(held[0]) else FindHeld(held[1..], owner)
  }

  /** The subscriber's snapshot: its entry for `x` is refilled, or added from a reservation. */
  function RefreshEntry(g: Graph, x: PeerId, o: PeerId, held: seq<Reservation>, publish: bool): (r: Graph)
    requires g.Keyed() && x in g.peers && o in g.peers
    ensures r.Keyed() && r == g.(receivers := r.receivers)
  {
    var k := ScanEntry(g.receivers[o], x, 0);
    var h := FindHeld(held, o);
    if k < MAX_REMOTE_SLOTS then SetEntry(g, o, k, g.receivers[o][k].(media := g.peers[x].media))
    else if publish && h.Some? && h.value.slot !in g.receivers[o] then
      SetEntry(g, o, h.value.slot, Entry(x, h.value.slot, h.value.generation, g.peers[x].media))
    else g
  }

  function RefreshOne(g: Graph, x: PeerId, o: PeerId, held: seq<Reservation>, publish: bool): (r: Graph)
    requires g.Keyed() && x in g.peers && o in g.peers
    ensures r.Keyed() && r == g.(receivers := r.receivers, bundles := r.bundles)
  {
    var g1 := RefreshEntry(g, x, o, held, publish);
    var g2 := FanoutAdd(g1, x, o);
    if g2.Some? then g2.value else g1
  }

  function RefreshAll(g: Graph, x: PeerId, others: seq<PeerId>, held: seq<Reservation>, publish: bool,
                      i: nat): (r: Graph)
    requires g.Keyed() && x in g.peers && i <= |others| && forall j | 0 <= j < |others| :: others[j] in g.peers
    ensures r.Keyed() && r == g.(receivers := r.receivers, bundles := r.bundles)
    decreases |others| - i
  {
    if i == |others| then g
    else RefreshAll(RefreshOne(g, x, others[i], held, publish), x, others, held, publish, i + 1)
  }

  // ------------------------------------------------------------- what they keep

  ghost predicate AllHeldFor(g: Graph, held: seq<Reservation>, p: PeerId) {
    forall h | h in held :: HeldFor(g, h, h.owner, p)
  }

  lemma HeldIsUnused(g: Graph, held: seq<Reservation>, p: PeerId)
    requires AllHeldFor(g, held, p)
    ensures AllUnused(g, held)
  {
    forall i | 0 <= i < |held| ensures Unused(g, held[i]) { assert held[i] in held; }
  }

  lemma {:induction false} LazyReserveKeeps(g: Graph, x: PeerId, others: seq<PeerId>, i: nat, held: seq<Reservation>)
    requires EdgesInv(g) && x in g.peers && i <= |others| && forall j | 0 <= j < |others| :: others[j] in g.peers
    requires AllHeldFor(g, held, x)
    ensures var r := LazyReserve(g, x, others, i, held); EdgesInv(r.graph) && AllHeldFor(r.graph, r.held, x)
    decreases |others| - i
  {
    if i < |others| {
      var o := others[i];
      if Hears(g, o, x) {
        LazyReserveKeeps(g, x, others, i + 1, held);
      } else {
        forall k | k in g.receivers[o] ensures g.receivers[o][k].publisher != x {
          assert EntryOk(g.peers, g.tables, o, k, g.receivers[o][k]);
        }
        ReserveForKeeps(g, o, x);
        var (g1, slot) := ReserveFor(g, o, x);
        hide EdgesInv, ReserveFor;
        assert AllHeldFor(g1, held, x) by {
          forall h | h in held ensures HeldFor(g1, h, h.owner, x) { assert HeldFor(g, h, h.owner, x); }
        }
        if slot.Some? {
          LazyReserveKeeps(g1, x, others, i + 1, held + [Reservation(o, slot.value.0, slot.value.1)]);
        }
      }
    }
  }

  /** Refilling the media of an entry changes no identity. */
  lemma EntryRefilled(receivers: map<PeerId, Receivers>, s: PeerId, k: int, media: Media)
    requires s in receivers && k in receivers[s]
    ensures var receivers' := receivers[s := receivers[s][k := receivers[s][k].(media := media)]];
      forall s1, p1, k1, n1 :: HasEntry(receivers', s1, p1, k1, n1) <==> HasEntry(receivers, s1, p1, k1, n1)
  {
  }

  lemma RouteRefilled(bundles: map<PeerId, Bundle>, p: PeerId, j: int, media: Media)
    requires p in bundles && j in bundles[p]
    ensures var bundles' := bundles[p := bundles[p][j := bundles[p][j].(media := media)]];
      forall s1, p1, k1, n1 :: HasRoute(bundles', p1, s1, k1, n1) <==> HasRoute(bundles, p1, s1, k1, n1)
  {
    var bundles' := bundles[p := bundles[p][j := bundles[p][j].(media := media)]];
    forall s1, p1, k1, n1 ensures HasRoute(bundles', p1, s1, k1, n1) <==> HasRoute(bundles, p1, s1, k1, n1) {
      if p1 in bundles {
        forall i ensures Carries(bundles'[p1], i, s1, k1, n1) <==> Carries(bundles[p1], i, s1, k1, n1) { }
      }
    }
  }

  function Refilled(g: Graph, x: PeerId, o: PeerId, k: int, j: int): Graph
    requires g.Keyed() && x in g.peers && o in g.peers && k in g.receivers[o] && j in g.bundles[x]
  {
    SetRoute(SetEntry(g, o, k, g.receivers[o][k].(media := g.peers[x].media)), x, j,
             g.bundles[x][j].(media := g.peers[x].media))
  }

  /** A listener's entry is matched by the publisher's route to it. */
  lemma ListenerHasRoute(g: Graph, x: PeerId, o: PeerId) returns (k: int, j: int)
    requires EdgesInv(g) && x in g.peers && o in g.peers && Hears(g, o, x)
    ensures k == ScanEntry(g.receivers[o], x, 0) && k in g.receivers[o] && g.receivers[o][k].remoteSlot == k
    ensures Carries(g.bundles[x], j, o, k, g.receivers[o][k].generation)
    ensures j == ScanRoute(g.bundles[x], o, 0) < MAX_REMOTE_SLOTS
  {
    hide TablesOk, Assigned;
    k := ScanEntry(g.receivers[o], x, 0);
    var e := g.receivers[o][k];
    assert EntryOk(g.peers, g.tables, o, k, e) && HasEntry(g.receivers, o, x, k, e.generation);
    assert HasRoute(g.bundles, x, o, k, e.generation);
    j :| Carries(g.bundles[x], j, o, k, e.generation);
    assert BundleOk(g.bundles[x]);
  }

  /** The entry and the route are refilled in place. */
  lemma RefillsInPlace(g: Graph, x: PeerId, o: PeerId, held: seq<Reservation>, publish: bool) returns (k: int, j: int)
    requires EdgesInv(g) && x in g.peers && o in g.peers && Hears(g, o, x)
    ensures k in g.receivers[o] && j in g.bundles[x]
    ensures RefreshOne(g, x, o, held, publish) == Refilled(g, x, o, k, j)
  {
    hide EdgesInv, FindHeld;
    EdgesReady(g);
    k, j := ListenerHasRoute(g, x, o);
    var g1 := RefreshEntry(g, x, o, held, publish);
    assert g1.receivers[o].Keys == g.receivers[o].Keys;
    assert ScanEntry(g1.receivers[o], x, 0) == k;
  }

  lemma RefillKeeps(g: Graph, x: PeerId, o: PeerId, k: int, j: int)
    requires EdgesInv(g) && x in g.peers && o in g.peers && k in g.receivers[o] && j in g.bundles[x]
    ensures var g' := Refilled(g, x, o, k, j);
      && EdgesInv(g')
      && (forall s, p, k, n :: HasEntry(g'.receivers, s, p, k, n) <==> HasEntry(g.receivers, s, p, k, n))
  {
    var g' := Refilled(g, x, o, k, j);
    EntryRefilled(g.receivers, o, k, g.peers[x].media);
    RouteRefilled(g.bundles, x, j, g.peers[x].media);
    assert BundleOk(g.bundles[x]);
    forall s, i | s in g'.receivers && i in g'.receivers[s]
      ensures EntryOk(g'.peers, g'.tables, s, i, g'.receivers[s][i])
    {
      assert EntryOk(g.peers, g.tables, s, i, g.receivers[s][i]);
    }
  }

  lemma RefreshHearerKeeps(g: Graph, x: PeerId, o: PeerId, held: seq<Reservation>, publish: bool)
    requires GraphInv(g) && x in g.peers && o in g.peers && Hears(g, o, x)
    ensures var g' := RefreshOne(g, x, o, held, publish);
      && GraphInv(g') && Hears(g', o, x)
      && (forall q | q in g.peers && q != o :: g'.receivers[q] == g.receivers[q])
  {
    hide RefreshOne, RoomsInv, EdgesInv;
    EdgesReady(g);
    var k, j := RefillsInPlace(g, x, o, held, publish);
    RefillKeeps(g, x, o, k, j);
    var i := ScanEntry(g.receivers[o], x, 0);
    assert HasEntry(g.receivers, o, x, i, g.receivers[o][i].generation);
    EntryIsHeard(Refilled(g, x, o, k, j), o, x, i, g.receivers[o][i].generation);
  }

  /** One session's refresh keeps the invariant, touches only that session's entries, and
      leaves the session hearing `x` if it did before or a slot was reserved for it. */
  lemma RefreshOneKeeps(g: Graph, x: PeerId, o: PeerId, held: seq<Reservation>, publish: bool)
    requires GraphInv(g) && x in g.peers && o in g.peers && x != o
    requires g.peers[x].room.Some? && g.peers[o].room == g.peers[x].room
    requires FindHeld(held, o).Some? && !Hears(g, o, x) ==> HeldFor(g, FindHeld(held, o).value, o, x)
    ensures var g' := RefreshOne(g, x, o, held, publish);
      && GraphInv(g')
      && (forall q | q in g.peers && q != o :: g'.receivers[q] == g.receivers[q])
      && (Hears(g', o, x) <==> Hears(g, o, x) || (publish && FindHeld(held, o).Some?))
  {
    if Hears(g, o, x) {
      RefreshHearerKeeps(g, x, o, held, publish);
    } else {
      forall k | k in g.receivers[o] ensures g.receivers[o][k].publisher != x {
        assert EntryOk(g.peers, g.tables, o, k, g.receivers[o][k]);
      }
      if publish && FindHeld(held, o).Some? {
        var h := FindHeld(held, o).value;
        AttachKeeps(g, o, x, h.slot, h.generation);
        assert RefreshOne(g, x, o, held, publish) == Attach(g, o, x, h.slot, h.generation).value;
        EntryIsHeard(RefreshOne(g, x, o, held, publish), o, x, h.slot, h.generation);
      }
    }
  }

  /** A refresh leaves the entries of sessions it does not visit alone. */
  lemma {:induction false} RefreshAllFrame(g: Graph, x: PeerId, others: seq<PeerId>, held: seq<Reservation>,
                                           publish: bool, i: nat, q: PeerId)
    requires g.Keyed() && x in g.peers && i <= |others| && forall j | 0 <= j < |others| :: others[j] in g.peers
    requires q in g.peers && forall j | i <= j < |others| :: others[j] != q
    ensures RefreshAll(g, x, others, held, publish, i).receivers[q] == g.receivers[q]
    decreases |others| - i
  {
    if i < |others| {
      RefreshAllFrame(RefreshOne(g, x, others[i], held, publish), x, others, held, publish, i + 1, q);
    }
  }

  /** The reservations the remaining visits will use are still good. */
  ghost predicate VisitsReady(g: Graph, x: PeerId, others: seq<PeerId>, held: seq<Reservation>, i: nat) {
    && GraphInv(g) && g.Keyed() && Roommates(g, x, others) && i <= |others|
    && forall j | i <= j < |others| && FindHeld(held, others[j]).Some? && !Hears(g, others[j], x) ::
         HeldFor(g, FindHeld(held, others[j]).value, others[j], x)
  }

  lemma VisitKeepsReady(g: Graph, x: PeerId, others: seq<PeerId>, held: seq<Reservation>, publish: bool, i: nat)
    requires VisitsReady(g, x, others, held, i) && i < |others|
    ensures var g' := RefreshOne(g, x, others[i], held, publish);
      && VisitsReady(g', x, others, held, i + 1)
      && (Hears(g', others[i], x) <==> Hears(g, others[i], x) || (publish && FindHeld(held, others[i]).Some?))
      && (forall j | i < j < |others| :: g'.receivers[others[j]] == g.receivers[others[j]])
  {
    hide RefreshOne, GraphInv, FindHeld;
    RefreshOneKeeps(g, x, others[i], held, publish);
    var g' := RefreshOne(g, x, others[i], held, publish);
    assert forall j | i < j < |others| :: others[j] in g.peers && others[j] != others[i];
    forall j | i < j < |others| && FindHeld(held, others[j]).Some? && !Hears(g', others[j], x)
      ensures HeldFor(g', FindHeld(held, others[j]).value, others[j], x)
    {
      assert !Hears(g, others[j], x);
    }
  }

  lemma {:induction false} RefreshAllKeeps(g: Graph, x: PeerId, others: seq<PeerId>, held: seq<Reservation>,
                                           publish: bool, i: nat)
    requires VisitsReady(g, x, others, held, i)
    ensures GraphInv(RefreshAll(g, x, others, held, publish, i))
    decreases |others| - i
  {
    if i < |others| {
      VisitKeepsReady(g, x, others, held, publish, i);
      RefreshAllKeeps(RefreshOne(g, x, others[i], held, publish), x, others, held, publish, i + 1);
    }
  }

  /** After a refresh a visited session hears `x` exactly if it did before or a slot was
      reserved for it and `x` publishes. */
  lemma {:induction false} RefreshAllHears(g: Graph, x: PeerId, others: seq<PeerId>, held: seq<Reservation>,
                                           publish: bool, i: nat, j: nat)
    requires VisitsReady(g, x, others, held, i) && i <= j < |others|
    ensures Hears(RefreshAll(g, x, others, held, publish, i), others[j], x)
        <==> Hears(g, others[j], x) || (publish && FindHeld(held, others[j]).Some?)
    decreases |others| - i
  {
    hide RefreshOne, GraphInv, FindHeld, HeldFor, ScanEntry;
    VisitKeepsReady(g, x, others, held, publish, i);
    var g1 := RefreshOne(g, x, others[i], held, publish);
    if i == j {
      RefreshAllFrame(g1, x, others, held, publish, i + 1, others[i]);
    } else {
      RefreshAllHears(g1, x, others, held, publish, i + 1, j);
    }
  }
}

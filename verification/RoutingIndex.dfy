/**
 The hash index of the ICE-ufrag routing table (src/runtime/routing_context.c): open
 addressing with tombstones over a dense array of entries.  Here are the facts about the
 index as a value; `RoutingTable` runs the source's loops on it.
 */
module RoutingIndex {
  import opened Wrappers

  const MAX_MAPPINGS: nat := 32768
  const HASH_SLOTS: nat := 65536

  type Ufrag = seq<bv8>

  /** FNV-1a over the characters of the ufrag, in 32-bit arithmetic. */
  function Fnv1a(u: Ufrag, h: bv32): bv32
    decreases |u|
  {
    if u == [] then h else Fnv1a(u[1..], (h ^ (u[0] as bv32)) * 16777619)
  }

  function Hash(u: Ufrag): nat { Fnv1a(u, 2166136261) as nat }

  datatype Pending = Pending(generation: nat, valid: bool, peerId: nat, payload: int)
  datatype Entry = Entry(ufrag: Ufrag, room: int, fd: int, worker: Option<nat>, pending: Pending)

  datatype HashSlot = Empty | Deleted | Used(hash: nat, index: nat)

  /** The slot looked at after `k` probes. */
  function At(h: nat, k: nat): (p: nat)
    ensures p < HASH_SLOTS
  {
    (h + k) % HASH_SLOTS
  }

  // ---------------------------------------------------------------- invariant

  /** A probe for `h` does not stop before distance `k`. */
  ghost predicate Path(index: seq<HashSlot>, h: nat, k: nat)
    requires |index| == HASH_SLOTS
  {
    forall j: nat | j < k :: !index[At(h, j)].Empty?
  }

  /** Entry `i` is indexed at probe distance `dist[i]` and can be reached there. */
  ghost predicate Indexed(entries: seq<Entry>, index: seq<HashSlot>, dist: seq<nat>, i: nat)
    requires |index| == HASH_SLOTS && i < |entries| == |dist|
  {
    var h := Hash(entries[i].ufrag);
    dist[i] < HASH_SLOTS && index[At(h, dist[i])] == Used(h, i) && Path(index, h, dist[i])
  }

  /** A used slot is where its entry says it is. */
  ghost predicate Backed(entries: seq<Entry>, index: seq<HashSlot>, dist: seq<nat>, p: nat)
    requires |index| == HASH_SLOTS && |entries| == |dist| && p < HASH_SLOTS
  {
    index[p].Used? ==>
      index[p].index < |entries| && p == At(Hash(entries[index[p].index].ufrag), dist[index[p].index])
  }

  ghost predicate DistinctKeys(entries: seq<Entry>) {
    forall i, j | 0 <= i < j < |entries| :: entries[i].ufrag != entries[j].ufrag
  }

  ghost predicate IndexOk(entries: seq<Entry>, index: seq<HashSlot>, dist: seq<nat>) {
    && |index| == HASH_SLOTS && |dist| == |entries|
    && (forall i {:trigger Indexed(entries, index, dist, i)} | 0 <= i < |entries| :: Indexed(entries, index, dist, i))
    && (forall p {:trigger Backed(entries, index, dist, p)} | 0 <= p < HASH_SLOTS :: Backed(entries, index, dist, p))
    && DistinctKeys(entries)
  }

  // ------------------------------------------------------------------ counting

  ghost function CountUsed(index: seq<HashSlot>): nat {
    if index == [] then 0 else CountUsed(index[..|index| - 1]) + (if index[|index| - 1].Used? then 1 else 0)
  }

  ghost function CountDeleted(index: seq<HashSlot>): nat {
    if index == [] then 0 else CountDeleted(index[..|index| - 1]) + (if index[|index| - 1].Deleted? then 1 else 0)
  }

  lemma {:induction false} CountsAfterUpdate(index: seq<HashSlot>, p: nat, v: HashSlot)
    requires p < |index|
    ensures CountUsed(index[p := v]) ==
      CountUsed(index) - (if index[p].Used? then 1 else 0) + (if v.Used? then 1 else 0)
    ensures CountDeleted(index[p := v]) ==
      CountDeleted(index) - (if index[p].Deleted? then 1 else 0) + (if v.Deleted? then 1 else 0)
  {
    var n := |index| - 1;
    if p == n {
      assert index[p := v][..n] == index[..n];
    } else {
      CountsAfterUpdate(index[..n], p, v);
      assert index[p := v][..n] == index[..n][p := v];
    }
  }

  /** Fewer used and deleted slots than slots: one is empty. */
  lemma {:induction false} SomeSlotEmpty(index: seq<HashSlot>)
    requires CountUsed(index) + CountDeleted(index) < |index|
    ensures exists p :: 0 <= p < |index| && index[p].Empty?
  {
    var n := |index| - 1;
    if index[n].Empty? {
    } else {
      SomeSlotEmpty(index[..n]);
      var p :| 0 <= p < n && index[..n][p].Empty?;
      assert index[p].Empty?;
    }
  }

  lemma {:induction false} EmptyIndexCounts(index: seq<HashSlot>)
    requires forall p | 0 <= p < |index| :: index[p].Empty?
    ensures CountUsed(index) == 0 && CountDeleted(index) == 0
  {
    if index != [] { EmptyIndexCounts(index[..|index| - 1]); }
  }

  // ------------------------------------------------------------------ probing

  /** Every slot lies on the probe sequence of every hash, at a unique distance. */
  lemma DistanceTo(h: nat, p: nat) returns (k: nat)
    requires p < HASH_SLOTS
    ensures k < HASH_SLOTS && At(h, k) == p
  {
    k := (p + HASH_SLOTS - h % HASH_SLOTS) % HASH_SLOTS;
  }

  lemma AtInjective(h: nat, j: nat, k: nat)
    requires j < HASH_SLOTS && k < HASH_SLOTS && At(h, j) == At(h, k)
    ensures j == k
  {
  }

  predicate Matches(entries: seq<Entry>, slot: HashSlot, key: Ufrag, h: nat) {
    slot.Used? && slot.hash == h && slot.index < |entries| && entries[slot.index].ufrag == key
  }

  /** The only slot that matches a key is the one its entry is indexed at. */
  lemma MatchIsEntry(entries: seq<Entry>, index: seq<HashSlot>, dist: seq<nat>, p: nat, i: nat, h: nat)
    requires IndexOk(entries, index, dist) && p < HASH_SLOTS && i < |entries| && h == Hash(entries[i].ufrag)
    requires Matches(entries, index[p], entries[i].ufrag, h)
    ensures index[p].index == i && p == At(h, dist[i])
  {
    assert Backed(entries, index, dist, p);
  }

  /** A probe that passes no match and no empty slot, and stops at one of them, stops at the
      key's own slot. */
  lemma StopsAtOnlyMatch(entries: seq<Entry>, index: seq<HashSlot>, key: Ufrag, h: nat, d: nat, stop: nat)
    requires |index| == HASH_SLOTS && d < HASH_SLOTS && stop < HASH_SLOTS
    requires Path(index, h, d) && Matches(entries, index[At(h, d)], key, h)
    requires forall p | 0 <= p < HASH_SLOTS && Matches(entries, index[p], key, h) :: p == At(h, d)
    requires forall j: nat | j < stop :: !Matches(entries, index[At(h, j)], key, h)
    requires Matches(entries, index[At(h, stop)], key, h) || index[At(h, stop)].Empty?
    ensures stop == d
  {
    if stop < d {
      assert !index[At(h, stop)].Empty?;
      AtInjective(h, stop, d);
    }
  }

  // ------------------------------------------------------------ index updates

  lemma PathGrows(index: seq<HashSlot>, p: nat, v: HashSlot, h: nat, k: nat)
    requires |index| == HASH_SLOTS && p < HASH_SLOTS && !v.Empty? && Path(index, h, k)
    ensures Path(index[p := v], h, k)
  {
  }

  /** Indexing a new key at the first usable slot of its probe sequence. */
  lemma InsertKeeps(entries: seq<Entry>, index: seq<HashSlot>, dist: seq<nat>, e: Entry, k: nat)
    requires IndexOk(entries, index, dist) && k < HASH_SLOTS
    requires forall i | 0 <= i < |entries| :: entries[i].ufrag != e.ufrag
    requires var h := Hash(e.ufrag); !index[At(h, k)].Used? && Path(index, h, k)
    ensures var h := Hash(e.ufrag); IndexOk(entries + [e], index[At(h, k) := Used(h, |entries|)], dist + [k])
  {
    hide Hash;
    var h := Hash(e.ufrag);
    var p := At(h, k);
    var entries', index', dist' := entries + [e], index[p := Used(h, |entries|)], dist + [k];
    forall i | 0 <= i < |entries'| ensures Indexed(entries', index', dist', i) {
      if i < |entries| {
        assert Indexed(entries, index, dist, i);
        PathGrows(index, p, Used(h, |entries|), Hash(entries[i].ufrag), dist[i]);
      } else {
        PathGrows(index, p, Used(h, |entries|), h, k);
      }
    }
    forall q | 0 <= q < HASH_SLOTS ensures Backed(entries', index', dist', q) {
      assert Backed(entries, index, dist, q);
    }
  }

  function SwapRemove(entries: seq<Entry>, i: nat): seq<Entry>
    requires i < |entries|
  {
    entries[i := entries[|entries| - 1]][..|entries| - 1]
  }

  /** The index after the removed entry's slot became a tombstone and the moved entry's slot
      points to its new place. */
  ghost function RemovedIndex(entries: seq<Entry>, index: seq<HashSlot>, dist: seq<nat>, i: nat): seq<HashSlot>
    requires |index| == HASH_SLOTS && i < |entries| == |dist|
  {
    var last := |entries| - 1;
    var tombed := index[At(Hash(entries[i].ufrag), dist[i]) := Deleted];
    if i == last then tombed
    else tombed[At(Hash(entries[last].ufrag), dist[last]) := Used(Hash(entries[last].ufrag), i)]
  }

  lemma RemoveKeeps(entries: seq<Entry>, index: seq<HashSlot>, dist: seq<nat>, i: nat)
    requires IndexOk(entries, index, dist) && i < |entries|
    ensures IndexOk(SwapRemove(entries, i), RemovedIndex(entries, index, dist, i),
                    dist[i := dist[|dist| - 1]][..|dist| - 1])
  {
    hide Hash;
    var last := |entries| - 1;
    var h, hl := Hash(entries[i].ufrag), Hash(entries[last].ufrag);
    var p, pl := At(h, dist[i]), At(hl, dist[last]);
    assert Indexed(entries, index, dist, i) && Indexed(entries, index, dist, last);
    var index' := RemovedIndex(entries, index, dist, i);
    var entries', dist' := SwapRemove(entries, i), dist[i := dist[last]][..last];
    forall a, k | Path(index, a, k) ensures Path(index', a, k) {
      PathGrows(index, p, Deleted, a, k);
      PathGrows(index[p := Deleted], pl, Used(hl, i), a, k);
    }
    forall j | 0 <= j < |entries'| ensures Indexed(entries', index', dist', j) {
      var was := if j == i then last else j;
      assert Indexed(entries, index, dist, was);
    }
    forall q | 0 <= q < HASH_SLOTS ensures Backed(entries', index', dist', q) {
      assert Backed(entries, index, dist, q);
    }
  }
}

/**
 The copy-on-write snapshots of src/peer/session.c: a receiver snapshot or fanout bundle is an
 array of chunks of 32 places; a changed copy shares all chunks but one with its parent, and
 reference counts say when a chunk can go.  Receivers and bundles differ only in what a place
 holds, so one model serves both.
 */
module SnapshotStore {
  import opened Wrappers

  const CHUNK_SIZE: nat := 32
  const CHUNK_COUNT: nat := 10
  const MAX_SLOTS: nat := 299

  /** What a place holds: the entry and the media it is eligible for. */
  datatype Place = Place(entry: int, audio: bool, video: bool, screen: bool)

  datatype Chunk = Chunk(refs: int, places: seq<Option<Place>>)

  datatype Snapshot = Snapshot(chunks: seq<Option<nat>>, count: nat, generation: nat)

  /** All live chunks and snapshots, by address. */
  datatype Store = Store(chunks: map<nat, Chunk>, snaps: map<nat, Snapshot>)

  // ------------------------------------------------------------------------- invariant

  function Holders(snaps: map<nat, Snapshot>, c: nat): set<nat> {
    set s | s in snaps && Some(c) in snaps[s].chunks
  }

  /** A snapshot refers to live chunks, each in one place. */
  ghost predicate SnapshotOk(chunks: map<nat, Chunk>, s: Snapshot) {
    && |s.chunks| == CHUNK_COUNT
    && (forall i | 0 <= i < CHUNK_COUNT && s.chunks[i].Some? :: s.chunks[i].value in chunks)
    && (forall i, j | 0 <= i < j < CHUNK_COUNT && s.chunks[i].Some? :: s.chunks[i] != s.chunks[j])
  }

  /** A chunk is referred to as often as its count says, and at least once. */
  ghost predicate ChunkOk(store: Store, c: nat)
    requires c in store.chunks
  {
    && |store.chunks[c].places| == CHUNK_SIZE && store.chunks[c].refs == |Holders(store.snaps, c)|
    && Holders(store.snaps, c) != {}
  }

  ghost predicate StoreInv(store: Store) {
    && (forall s {:trigger SnapshotOk(store.chunks, store.snaps[s])} | s in store.snaps ::
          SnapshotOk(store.chunks, store.snaps[s]))
    && (forall c {:trigger ChunkOk(store, c)} | c in store.chunks :: ChunkOk(store, c))
  }

  // --------------------------------------------------------------------------- reading

  /** What a snapshot holds in a slot. */
  function At(chunks: map<nat, Chunk>, s: Snapshot, slot: nat): Option<Place> {
    var i, off := slot / CHUNK_SIZE, slot % CHUNK_SIZE;
    if i >= |s.chunks| || s.chunks[i].None? || s.chunks[i].value !in chunks then None
    else if off >= |chunks[s.chunks[i].value].places| then None
    else chunks[s.chunks[i].value].places[off]
  }

  // --------------------------------------------------------------------------- writing

  /** Counts one more holder for every chunk of a snapshot. */
  function ShareAll(chunks: map<nat, Chunk>, s: Snapshot): map<nat, Chunk> {
    map c | c in chunks :: if Some(c) in s.chunks then chunks[c].(refs := chunks[c].refs + 1) else chunks[c]
  }

  /** Gives up one reference; the last one frees the chunk. */
  function ReleaseChunk(chunks: map<nat, Chunk>, c: nat): map<nat, Chunk>
    requires c in chunks
  {
    if chunks[c].refs == 1 then chunks - {c} else chunks[c := chunks[c].(refs := chunks[c].refs - 1)]
  }

  function NoPlaces(n: nat): (p: seq<Option<Place>>)
    ensures |p| == n && forall i | 0 <= i < n :: p[i] == None
  {
    if n == 0 then [] else NoPlaces(n - 1) + [None]
  }

  /** The chunk a changed copy has at the changed place: a private copy, or a new one. */
  function ChangedChunk(was: Option<Chunk>, off: nat, place: Option<Place>): Chunk
    requires off < CHUNK_SIZE && (was.Some? ==> |was.value.places| == CHUNK_SIZE)
  {
    Chunk(1, (if was.Some? then was.value.places else NoPlaces(CHUNK_SIZE))[off := place])
  }

  function NewCount(count: nat, was: bool, now: bool): nat {
    if now && !was then count + 1 else if was && !now && count > 0 then count - 1 else count
  }

  /** A copy of a snapshot with one slot changed; `fresh'` is the address of the private chunk. */
  function CopySet(store: Store, from: Snapshot, id: nat, fresh': nat, slot: nat, place: Option<Place>): Store
    requires SnapshotOk(store.chunks, from) && slot < MAX_SLOTS
    requires from.chunks[slot / CHUNK_SIZE].Some? ==>
      |store.chunks[from.chunks[slot / CHUNK_SIZE].value].places| == CHUNK_SIZE
  {
    var i, off := slot / CHUNK_SIZE, slot % CHUNK_SIZE;
    var shared := ShareAll(store.chunks, from);
    var was := from.chunks[i];
    var count := NewCount(from.count, At(store.chunks, from, slot).Some?, place.Some?);
    if was.None? && place.None? then Store(shared, store.snaps[id := Snapshot(from.chunks, count, from.generation + 1)])
    else
      var chunk := ChangedChunk(if was.None? then None else Some(store.chunks[was.value]), off, place);
      var released := if was.None? then shared else ReleaseChunk(shared, was.value);
      Store(released[fresh' := chunk],
            store.snaps[id := Snapshot(from.chunks[i := Some(fresh')], count, from.generation + 1)])
  }

  /** Releases the chunks of a snapshot from place `i` on. */
  function ReleaseFrom(chunks: map<nat, Chunk>, list: seq<Option<nat>>): map<nat, Chunk> {
    if list == [] then chunks
    else if list[0].None? || list[0].value !in chunks then ReleaseFrom(chunks, list[1..])
    else ReleaseFrom(ReleaseChunk(chunks, list[0].value), list[1..])
  }

  /** The last holder of a snapshot lets go of it. */
  function Drop(store: Store, id: nat): Store {
    if id !in store.snaps then store else Store(ReleaseFrom(store.chunks, store.snaps[id].chunks), store.snaps - {id})
  }

  // ------------------------------------------------------------------------- exactness

  lemma HoldersAfterAdd(snaps: map<nat, Snapshot>, id: nat, s: Snapshot, c: nat)
    requires id !in snaps
    ensures Holders(snaps[id := s], c) == if Some(c) in s.chunks then Holders(snaps, c) + {id} else Holders(snaps, c)
    ensures id !in Holders(snaps, c)
  {
  }

  lemma HoldersAfterDrop(snaps: map<nat, Snapshot>, id: nat, c: nat)
    requires id in snaps
    ensures Holders(snaps - {id}, c) == Holders(snaps, c) - {id}
  {
  }

  /** The snapshot to copy is live, or there is none yet. */
  ghost predicate Copyable(store: Store, from: Snapshot) {
    || (exists f :: f in store.snaps && store.snaps[f] == from)
    || (|from.chunks| == CHUNK_COUNT && forall i | 0 <= i < CHUNK_COUNT :: from.chunks[i].None?)
  }

  lemma CopyableIsOk(store: Store, from: Snapshot)
    requires StoreInv(store) && Copyable(store, from)
    ensures SnapshotOk(store.chunks, from)
    ensures forall c | c in store.chunks && Some(c) in from.chunks :: store.chunks[c].refs >= 1
    ensures forall c | c in store.chunks :: |store.chunks[c].places| == CHUNK_SIZE
  {
    if exists f :: f in store.snaps && store.snaps[f] == from {
      var f :| f in store.snaps && store.snaps[f] == from;
      assert SnapshotOk(store.chunks, store.snaps[f]);
    }
    forall c | c in store.chunks ensures |store.chunks[c].places| == CHUNK_SIZE && store.chunks[c].refs >= 1 {
      assert ChunkOk(store, c);
      NonEmptyHasElements(Holders(store.snaps, c));
    }
  }

  lemma NonEmptyHasElements(s: set<nat>)
    requires s != {}
    ensures |s| >= 1
  {
  }

  /** The chunks after a copy: contents of old chunks are untouched, and counts rise by one where
      the copy shares. */
  lemma CopyChunks(store: Store, from: Snapshot, id: nat, fresh': nat, slot: nat, place: Option<Place>)
    requires StoreInv(store) && Copyable(store, from) && id !in store.snaps && fresh' !in store.chunks
    requires slot < MAX_SLOTS
    ensures SnapshotOk(store.chunks, from)
    ensures from.chunks[slot / CHUNK_SIZE].Some? ==>
      |store.chunks[from.chunks[slot / CHUNK_SIZE].value].places| == CHUNK_SIZE
    ensures var after := CopySet(store, from, id, fresh', slot, place);
      && (forall c | c in store.chunks :: c in after.chunks && after.chunks[c].places == store.chunks[c].places
            && after.chunks[c].refs == store.chunks[c].refs + (if Some(c) in after.snaps[id].chunks then 1 else 0))
      && (forall c | c in after.chunks ::
            || c in store.chunks
            || (&& c == fresh' && after.snaps[id].chunks[slot / CHUNK_SIZE] == Some(fresh')
                && |after.chunks[c].places| == CHUNK_SIZE && after.chunks[c].refs == 1))
  {
    CopyableIsOk(store, from);
    var i := slot / CHUNK_SIZE;
    var was := from.chunks[i];
    var chunks := from.chunks[i := Some(fresh')];
    forall c | c in store.chunks && Some(c) != was ensures Some(c) in chunks <==> Some(c) in from.chunks {
      if Some(c) in from.chunks {
        var j :| 0 <= j < |from.chunks| && from.chunks[j] == Some(c);
        assert chunks[j] == Some(c);
      }
    }
    if was.Some? { assert Some(was.value) !in chunks; }
  }

  lemma CopyKeepsChunks(store: Store, from: Snapshot, id: nat, fresh': nat, slot: nat, place: Option<Place>)
    requires StoreInv(store) && Copyable(store, from) && id !in store.snaps && fresh' !in store.chunks
    requires slot < MAX_SLOTS
    requires SnapshotOk(store.chunks, from)
    requires from.chunks[slot / CHUNK_SIZE].Some? ==>
      |store.chunks[from.chunks[slot / CHUNK_SIZE].value].places| == CHUNK_SIZE
    ensures var after := CopySet(store, from, id, fresh', slot, place);
      forall c | c in after.chunks :: ChunkOk(after, c)
  {
    hide CopySet;
    CopyChunks(store, from, id, fresh', slot, place);
    CopyIs(store, from, id, fresh', slot, place);
    var after := CopySet(store, from, id, fresh', slot, place);
    forall c | c in after.chunks ensures ChunkOk(after, c) {
      HoldersAfterAdd(store.snaps, id, after.snaps[id], c);
      if c in store.chunks {
        assert ChunkOk(store, c);
      } else {
        NoHolders(store, c);
        assert after.snaps[id].chunks[slot / CHUNK_SIZE] == Some(c);
      }
    }
  }

  /** No snapshot refers to an address that is not in use. */
  lemma NoHolders(store: Store, c: nat)
    requires StoreInv(store) && c !in store.chunks
    ensures Holders(store.snaps, c) == {}
  {
    if Holders(store.snaps, c) != {} {
      var s :| s in Holders(store.snaps, c);
      HolderHasChunk(store, s, c);
    }
  }

  lemma HolderHasChunk(store: Store, s: nat, c: nat)
    requires StoreInv(store) && s in Holders(store.snaps, c)
    ensures c in store.chunks
  {
    assert SnapshotOk(store.chunks, store.snaps[s]);
    var i :| 0 <= i < |store.snaps[s].chunks| && store.snaps[s].chunks[i] == Some(c);
  }

  lemma CopyIs(store: Store, from: Snapshot, id: nat, fresh': nat, slot: nat, place: Option<Place>)
    requires slot < MAX_SLOTS && SnapshotOk(store.chunks, from)
    requires from.chunks[slot / CHUNK_SIZE].Some? ==>
      |store.chunks[from.chunks[slot / CHUNK_SIZE].value].places| == CHUNK_SIZE
    ensures var after := CopySet(store, from, id, fresh', slot, place);
      && id in after.snaps && after.snaps == store.snaps[id := after.snaps[id]]
      && |after.snaps[id].chunks| == CHUNK_COUNT
  {
  }

  lemma CopyKeepsSnapshots(store: Store, from: Snapshot, id: nat, fresh': nat, slot: nat, place: Option<Place>)
    requires StoreInv(store) && Copyable(store, from) && id !in store.snaps && fresh' !in store.chunks
    requires slot < MAX_SLOTS
    requires SnapshotOk(store.chunks, from)
    requires from.chunks[slot / CHUNK_SIZE].Some? ==>
      |store.chunks[from.chunks[slot / CHUNK_SIZE].value].places| == CHUNK_SIZE
    ensures var after := CopySet(store, from, id, fresh', slot, place);
      forall s | s in after.snaps :: SnapshotOk(after.chunks, after.snaps[s])
  {
    CopyChunks(store, from, id, fresh', slot, place);
    var after := CopySet(store, from, id, fresh', slot, place);
    forall s | s in after.snaps ensures SnapshotOk(after.chunks, after.snaps[s]) {
      if s != id { assert SnapshotOk(store.chunks, store.snaps[s]); }
    }
  }

  /** What the copy itself holds. */
  lemma CopyReads(store: Store, from: Snapshot, id: nat, fresh': nat, slot: nat, place: Option<Place>, other: nat)
    requires StoreInv(store) && Copyable(store, from) && id !in store.snaps && fresh' !in store.chunks
    requires slot < MAX_SLOTS && other < MAX_SLOTS
    requires SnapshotOk(store.chunks, from)
    requires from.chunks[slot / CHUNK_SIZE].Some? ==>
      |store.chunks[from.chunks[slot / CHUNK_SIZE].value].places| == CHUNK_SIZE
    ensures var after := CopySet(store, from, id, fresh', slot, place);
      At(after.chunks, after.snaps[id], other) == if other == slot then place else At(store.chunks, from, other)
  {
    hide StoreInv, Copyable;
    CopyChunks(store, from, id, fresh', slot, place);
  }

  /** What another snapshot holds: its chunks are still there, with the same places. */
  lemma OthersRead(before: map<nat, Chunk>, after: map<nat, Chunk>, s: Snapshot, slot: nat)
    requires SnapshotOk(before, s)
    requires forall c | c in before && Some(c) in s.chunks :: c in after && after[c].places == before[c].places
    ensures At(after, s, slot) == At(before, s, slot)
  {
    var i := slot / CHUNK_SIZE;
    if i < CHUNK_COUNT && s.chunks[i].Some? { assert Some(s.chunks[i].value) in s.chunks; }
  }

  /** A copy refines an update of the map from slots to places, keeps every other snapshot as it
      was, and keeps the counts. */
  lemma CopySetIsUpdate(store: Store, from: Snapshot, id: nat, fresh': nat, slot: nat, place: Option<Place>,
                        other: nat, s: nat)
    requires StoreInv(store) && Copyable(store, from) && id !in store.snaps && fresh' !in store.chunks
    requires slot < MAX_SLOTS
    ensures SnapshotOk(store.chunks, from)
    ensures from.chunks[slot / CHUNK_SIZE].Some? ==>
      |store.chunks[from.chunks[slot / CHUNK_SIZE].value].places| == CHUNK_SIZE
    ensures var after := CopySet(store, from, id, fresh', slot, place);
      && StoreInv(after) && id in after.snaps
      && (other < MAX_SLOTS ==>
            At(after.chunks, after.snaps[id], other) == if other == slot then place else At(store.chunks, from, other))
      && (s in store.snaps ==>
            && s in after.snaps && after.snaps[s] == store.snaps[s]
            && At(after.chunks, after.snaps[s], other) == At(store.chunks, store.snaps[s], other))
  {
    hide CopySet, At, SnapshotOk, ChunkOk;
    CopyChunks(store, from, id, fresh', slot, place);
    CopyIs(store, from, id, fresh', slot, place);
    CopyKeepsSnapshots(store, from, id, fresh', slot, place);
    CopyKeepsChunks(store, from, id, fresh', slot, place);
    if other < MAX_SLOTS { CopyReads(store, from, id, fresh', slot, place, other); }
    if s in store.snaps {
      assert SnapshotOk(store.chunks, store.snaps[s]);
      OthersRead(store.chunks, CopySet(store, from, id, fresh', slot, place).chunks, store.snaps[s], other);
    }
  }

  // --------------------------------------------------------------------------- dropping

  /** After a list of distinct chunks was released: each lost one reference, and those that had
      only one are gone. */
  lemma {:induction false} ReleaseFromIs(chunks: map<nat, Chunk>, list: seq<Option<nat>>)
    requires forall i | 0 <= i < |list| && list[i].Some? :: list[i].value in chunks
    requires forall i, j | 0 <= i < j < |list| && list[i].Some? :: list[i] != list[j]
    ensures forall c :: c in ReleaseFrom(chunks, list) <==> c in chunks && !(Some(c) in list && chunks[c].refs == 1)
    ensures forall c | c in ReleaseFrom(chunks, list) ::
      ReleaseFrom(chunks, list)[c] == if Some(c) in list then chunks[c].(refs := chunks[c].refs - 1) else chunks[c]
  {
    if list != [] {
      var rest := list[1..];
      if list[0].None? {
        ReleaseFromIs(chunks, rest);
      } else {
        var first := list[0].value;
        var less := ReleaseChunk(chunks, first);
        assert Some(first) !in rest;
        assert forall i | 0 <= i < |rest| && rest[i].Some? :: rest[i] == list[i + 1] && rest[i].value in less;
        ReleaseFromIs(less, rest);
        assert forall c :: Some(c) in list <==> c == first || Some(c) in rest;
      }
    }
  }

  /** Letting go of a snapshot frees exactly the chunks nobody else holds and changes nothing for
      the snapshots that stay. */
  lemma DropKeeps(store: Store, id: nat, slot: nat, s: nat)
    requires StoreInv(store) && id in store.snaps
    ensures var after := Drop(store, id);
      && StoreInv(after) && id !in after.snaps
      && (forall c | c in store.chunks :: c in after.chunks <==> Holders(store.snaps, c) != {id})
      && (s in store.snaps && s != id ==>
            && s in after.snaps && after.snaps[s] == store.snaps[s]
            && At(after.chunks, after.snaps[s], slot) == At(store.chunks, store.snaps[s], slot))
  {
    hide At, SnapshotOk, Drop, ChunkOk;
    var after := Drop(store, id);
    DropChunks(store, id);
    forall t | t in after.snaps ensures SnapshotOk(after.chunks, after.snaps[t]) { StillOk(store, after, id, t); }
    if s in store.snaps && s != id {
      StillOk(store, after, id, s);
      OthersRead(store.chunks, after.chunks, store.snaps[s], slot);
    }
  }

  lemma DropChunks(store: Store, id: nat)
    requires StoreInv(store) && id in store.snaps
    ensures var after := Drop(store, id);
      && after.snaps == store.snaps - {id}
      && (forall c | c in store.chunks :: c in after.chunks <==> Holders(store.snaps, c) != {id})
      && (forall c | c in after.chunks :: ChunkOk(after, c))
  {
    var after, gone := Drop(store, id), store.snaps[id];
    assert SnapshotOk(store.chunks, gone);
    ReleaseFromIs(store.chunks, gone.chunks);
    forall c | c in store.chunks ensures c in after.chunks <==> Holders(store.snaps, c) != {id} {
      assert ChunkOk(store, c);
      LastHolder(store.snaps, c, id);
    }
    forall c | c in after.chunks ensures ChunkOk(after, c) {
      assert ChunkOk(store, c);
      HoldersAfterDrop(store.snaps, id, c);
      LastHolder(store.snaps, c, id);
    }
  }

  lemma LastHolder(snaps: map<nat, Snapshot>, c: nat, id: nat)
    requires id in snaps
    ensures id in Holders(snaps, c) <==> Some(c) in snaps[id].chunks
    ensures id in Holders(snaps, c) ==> (|Holders(snaps, c)| == 1 <==> Holders(snaps, c) == {id})
  {
    var h := Holders(snaps, c);
    if id in h {
      assert h == (h - {id}) + {id};
      if |h| == 1 { assert |h - {id}| == 0; }
    }
  }

  lemma StillOk(store: Store, after: Store, id: nat, t: nat)
    requires StoreInv(store) && id in store.snaps && t in store.snaps && t != id && after == Drop(store, id)
    ensures SnapshotOk(store.chunks, store.snaps[t]) && SnapshotOk(after.chunks, store.snaps[t])
    ensures forall c | c in store.chunks && Some(c) in store.snaps[t].chunks ::
      c in after.chunks && after.chunks[c].places == store.chunks[c].places
  {
    var gone := store.snaps[id];
    assert SnapshotOk(store.chunks, gone) && SnapshotOk(store.chunks, store.snaps[t]);
    ReleaseFromIs(store.chunks, gone.chunks);
    forall c | c in store.chunks && Some(c) in store.snaps[t].chunks
      ensures c in after.chunks && after.chunks[c].places == store.chunks[c].places
    {
      assert ChunkOk(store, c);
      assert t in Holders(store.snaps, c);
      LastHolder(store.snaps, c, id);
    }
  }

  // -------------------------------------------------------------------------- whole runs

  datatype Change = Copy(from: Option<nat>, id: nat, chunk: nat, slot: nat, place: Option<Place>) | Forget(id: nat)

  const NO_SNAPSHOT := Snapshot([None, None, None, None, None, None, None, None, None, None], 0, 0)

  predicate Possible(store: Store, c: Change) {
    match c
    case Copy(from, id, chunk, slot, _) =>
      (from.None? || from.value in store.snaps) && id !in store.snaps && chunk !in store.chunks && slot < MAX_SLOTS
    case Forget(id) => id in store.snaps
  }

  function Source(store: Store, from: Option<nat>): Snapshot
    requires from.None? || from.value in store.snaps
  {
    if from.None? then NO_SNAPSHOT else store.snaps[from.value]
  }

  lemma SourceIsCopyable(store: Store, from: Option<nat>)
    requires from.None? || from.value in store.snaps
    ensures Copyable(store, Source(store, from))
  {
  }

  ghost function Apply(store: Store, c: Change): Store
    requires StoreInv(store)
  {
    if !Possible(store, c) then store
    else
      match c
      case Copy(from, id, chunk, slot, place) =>
        SourceIsCopyable(store, from);
        CopyableIsOk(store, Source(store, from));
        CopySet(store, Source(store, from), id, chunk, slot, place)
      case Forget(id) => Drop(store, id)
  }

  lemma ApplyKeeps(store: Store, c: Change, s: nat, slot: nat)
    requires StoreInv(store)
    ensures StoreInv(Apply(store, c))
    ensures s in store.snaps && c != Forget(s) ==>
      var after := Apply(store, c);
      && s in after.snaps && after.snaps[s] == store.snaps[s]
      && At(after.chunks, after.snaps[s], slot) == At(store.chunks, store.snaps[s], slot)
  {
    hide CopySet, Drop, At;
    if Possible(store, c) {
      match c {
        case Copy(from, id, chunk, at, place) =>
          SourceIsCopyable(store, from);
          CopySetIsUpdate(store, Source(store, from), id, chunk, at, place, slot, s);
        case Forget(id) => DropKeeps(store, id, slot, s);
      }
    }
  }

  ghost function ApplyAll(store: Store, changes: seq<Change>): Store
    requires StoreInv(store)
    decreases |changes|
  {
    if changes == [] then store
    else
      ApplyKeeps(store, changes[0], 0, 0);
      ApplyAll(Apply(store, changes[0]), changes[1..])
  }

  /** A published snapshot never changes while it is held, whatever is copied and dropped around
      it; a chunk is live exactly while some snapshot refers to it. */
  lemma {:induction false} SnapshotsArePersistent(store: Store, changes: seq<Change>, s: nat, slot: nat)
    requires StoreInv(store) && s in store.snaps && Forget(s) !in changes
    ensures var after := ApplyAll(store, changes);
      && StoreInv(after) && s in after.snaps && after.snaps[s] == store.snaps[s]
      && At(after.chunks, after.snaps[s], slot) == At(store.chunks, store.snaps[s], slot)
    decreases |changes|
  {
    hide StoreInv, Apply, At;
    if changes != [] {
      assert Forget(s) != changes[0];
      ApplyKeeps(store, changes[0], s, slot);
      SnapshotsArePersistent(Apply(store, changes[0]), changes[1..], s, slot);
    }
  }

  // ------------------------------------------------------------------------- the count

  /** How many of the first `n` slots are taken. */
  function Taken(chunks: map<nat, Chunk>, s: Snapshot, n: nat): nat {
    if n == 0 then 0 else Taken(chunks, s, n - 1) + (if At(chunks, s, n - 1).Some? then 1 else 0)
  }

  lemma {:induction false} TakenAfter(before: map<nat, Chunk>, from: Snapshot, after: map<nat, Chunk>, to: Snapshot,
                                      slot: nat, n: nat)
    requires forall k | 0 <= k < n && k != slot :: At(after, to, k) == At(before, from, k)
    ensures Taken(after, to, n) - Taken(before, from, n) ==
      if slot < n then (if At(after, to, slot).Some? then 1 else 0) - (if At(before, from, slot).Some? then 1 else 0)
      else 0
  {
    hide At;
    if n > 0 {
      TakenAfter(before, from, after, to, slot, n - 1);
      if slot != n - 1 { assert At(after, to, n - 1) == At(before, from, n - 1); }
    }
  }

  /** The copy's count follows the change: it is right if its source's was. */
  lemma CopyCounts(store: Store, from: Snapshot, id: nat, fresh': nat, slot: nat, place: Option<Place>)
    requires StoreInv(store) && Copyable(store, from) && id !in store.snaps && fresh' !in store.chunks
    requires slot < MAX_SLOTS
    requires from.count == Taken(store.chunks, from, MAX_SLOTS)
    ensures SnapshotOk(store.chunks, from)
    ensures from.chunks[slot / CHUNK_SIZE].Some? ==>
      |store.chunks[from.chunks[slot / CHUNK_SIZE].value].places| == CHUNK_SIZE
    ensures var after := CopySet(store, from, id, fresh', slot, place);
      id in after.snaps && after.snaps[id].count == Taken(after.chunks, after.snaps[id], MAX_SLOTS)
  {
    CopyableIsOk(store, from);
    CopyIs(store, from, id, fresh', slot, place);
    var after := CopySet(store, from, id, fresh', slot, place);
    forall k | 0 <= k < MAX_SLOTS
      ensures At(after.chunks, after.snaps[id], k) == if k == slot then place else At(store.chunks, from, k)
    {
      CopyReads(store, from, id, fresh', slot, place, k);
    }
    TakenAfter(store.chunks, from, after.chunks, after.snaps[id], slot, MAX_SLOTS);
    if At(store.chunks, from, slot).Some? { TakenCounts(store.chunks, from, slot, MAX_SLOTS); }
  }

  lemma {:induction false} TakenCounts(chunks: map<nat, Chunk>, s: Snapshot, slot: nat, n: nat)
    requires slot < n && At(chunks, s, slot).Some?
    ensures Taken(chunks, s, n) > 0
  {
    if slot < n - 1 { TakenCounts(chunks, s, slot, n - 1); }
  }

  /** Every snapshot's count is the number of its occupied slots. */
  ghost predicate CountsOk(store: Store) {
    forall s | s in store.snaps :: store.snaps[s].count == Taken(store.chunks, store.snaps[s], MAX_SLOTS)
  }

  lemma {:induction false} NothingTaken(chunks: map<nat, Chunk>, n: nat)
    ensures Taken(chunks, NO_SNAPSHOT, n) == 0
  {
    if n > 0 { NothingTaken(chunks, n - 1); }
  }

  /** A snapshot that a change leaves alone is counted as before. */
  lemma CountStays(store: Store, c: Change, s: nat)
    requires StoreInv(store) && s in store.snaps && c != Forget(s)
    ensures var after := Apply(store, c);
      && s in after.snaps
      && Taken(after.chunks, after.snaps[s], MAX_SLOTS) == Taken(store.chunks, store.snaps[s], MAX_SLOTS)
  {
    hide StoreInv, Apply, At;
    var after := Apply(store, c);
    ApplyKeeps(store, c, s, 0);
    forall k | 0 <= k < MAX_SLOTS
      ensures At(after.chunks, after.snaps[s], k) == At(store.chunks, store.snaps[s], k)
    {
      ApplyKeeps(store, c, s, k);
    }
    TakenAfter(store.chunks, store.snaps[s], after.chunks, after.snaps[s], MAX_SLOTS, MAX_SLOTS);
  }

  /** Which snapshots there are after a change. */
  lemma ApplyIs(store: Store, c: Change, s: nat)
    requires StoreInv(store) && s in Apply(store, c).snaps
    ensures c != Forget(s)
    ensures if s in store.snaps then Apply(store, c).snaps[s] == store.snaps[s]
            else c.Copy? && Possible(store, c) && c.id == s
  {
    hide CopySet, ReleaseFrom;
    if Possible(store, c) && c.Copy? {
      SourceIsCopyable(store, c.from);
      CopyableIsOk(store, Source(store, c.from));
      CopyIs(store, Source(store, c.from), c.id, c.chunk, c.slot, c.place);
    }
  }

  lemma ApplyCounts(store: Store, c: Change)
    requires StoreInv(store) && CountsOk(store)
    ensures CountsOk(Apply(store, c))
  {
    hide StoreInv, Taken, CopySet, At;
    var after := Apply(store, c);
    forall s | s in after.snaps ensures after.snaps[s].count == Taken(after.chunks, after.snaps[s], MAX_SLOTS) {
      ApplyIs(store, c, s);
      if s in store.snaps {
        CountStays(store, c, s);
        ApplyKeeps(store, c, s, 0);
      } else {
        SourceIsCopyable(store, c.from);
        NothingTaken(store.chunks, MAX_SLOTS);
        CopyCounts(store, Source(store, c.from), c.id, c.chunk, c.slot, c.place);
      }
    }
  }

  lemma {:induction false} AllCounts(store: Store, changes: seq<Change>)
    requires StoreInv(store) && CountsOk(store)
    ensures CountsOk(ApplyAll(store, changes))
    decreases |changes|
  {
    hide StoreInv, CountsOk, Apply;
    if changes != [] {
      ApplyKeeps(store, changes[0], 0, 0);
      ApplyCounts(store, changes[0]);
      AllCounts(Apply(store, changes[0]), changes[1..]);
    }
  }

  /** After every run of copies and releases, the stored count of each live snapshot is the number
      of its occupied slots. */
  lemma CountsAreExact(changes: seq<Change>, s: nat)
    ensures StoreInv(Store(map[], map[]))
    ensures var store := ApplyAll(Store(map[], map[]), changes);
      s in store.snaps ==> store.snaps[s].count == Taken(store.chunks, store.snaps[s], MAX_SLOTS)
  {
    AllCounts(Store(map[], map[]), changes);
  }
}

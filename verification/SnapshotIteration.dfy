/**
 The iterators over receiver snapshots and fanout bundles (src/peer/session.c): a chunk index
 and the mask of places of that chunk still to be visited.
 */
module SnapshotIteration {
  import opened Wrappers
  import opened SnapshotStore

  /** All entries of a receiver snapshot, or the routes eligible for one kind of media. */
  datatype Wanted = Everything | Audio | Video | Screen

  predicate Wants(w: Wanted, p: Option<Place>) {
    && p.Some?
    && match w
       case Everything => true
       case Audio => p.value.audio
       case Video => p.value.video
       case Screen => p.value.screen
  }

  /** The chunks of a snapshot, missing ones included, as the iterator sees them. */
  type Chunks = c: seq<Option<seq<Option<Place>>>> |
    |c| == CHUNK_COUNT && forall i | 0 <= i < CHUNK_COUNT && c[i].Some? :: |c[i].value| == CHUNK_SIZE
    witness [None, None, None, None, None, None, None, None, None, None]

  predicate Visits(chunks: Chunks, w: Wanted, slot: nat) {
    && slot < CHUNK_COUNT * CHUNK_SIZE && chunks[slot / CHUNK_SIZE].Some?
    && Wants(w, chunks[slot / CHUNK_SIZE].value[slot % CHUNK_SIZE])
  }

  /** The set bits of a mask, by place. */
  type Mask = seq<bool>

  predicate IsEmpty(m: Mask) { forall i | 0 <= i < |m| :: !m[i] }

  method MaskOf(places: seq<Option<Place>>, w: Wanted) returns (m: Mask)
    ensures |m| == |places| && forall i | 0 <= i < |places| :: m[i] == Wants(w, places[i])
  {
    m := [];
    for i := 0 to |places|
      invariant |m| == i && forall j | 0 <= j < i :: m[j] == Wants(w, places[j])
    {
      m := m + [Wants(w, places[i])];
    }
  }

  /** The lowest set bit. */
  method Lowest(m: Mask) returns (i: nat)
    requires !IsEmpty(m)
    ensures i < |m| && m[i] && forall j | 0 <= j < i :: !m[j]
  {
    i := 0;
    while !m[i]
      invariant i < |m| && forall j | 0 <= j < i :: !m[j]
      decreases |m| - i
    {
      if i + 1 == |m| {
        assert IsEmpty(m);
        return;
      }
      i := i + 1;
    }
  }

  class Iterator {
    const chunks: Chunks
    const wanted: Wanted
    var chunkIndex: nat
    var pending: Mask
    ghost var cursor: nat // slots below were visited or are of no interest

    ghost predicate Valid()
      reads this
    {
      && chunkIndex <= CHUNK_COUNT && |pending| == CHUNK_SIZE
      && (IsEmpty(pending) ==>
            && cursor <= chunkIndex * CHUNK_SIZE
            && forall s | cursor <= s < chunkIndex * CHUNK_SIZE :: !Visits(chunks, wanted, s))
      && (!IsEmpty(pending) ==>
            && chunkIndex < CHUNK_COUNT && chunks[chunkIndex].Some?
            && chunkIndex * CHUNK_SIZE <= cursor <= (chunkIndex + 1) * CHUNK_SIZE
            && forall j | 0 <= j < CHUNK_SIZE ::
                 pending[j] == (chunkIndex * CHUNK_SIZE + j >= cursor && Wants(wanted, chunks[chunkIndex].value[j])))
    }

    constructor (chunks: Chunks, wanted: Wanted)
      ensures Valid() && cursor == 0 && this.chunks == chunks && this.wanted == wanted
    {
      this.chunks, this.wanted := chunks, wanted;
      chunkIndex, pending, cursor := 0, seq(CHUNK_SIZE, _ => false), 0;
    }

    /** Finds the next chunk with something to visit. */
    method LoadChunk() returns (found: bool)
      requires Valid()
      modifies this`chunkIndex, this`pending, this`cursor
      ensures Valid() && found == !IsEmpty(pending)
      ensures cursor >= old(cursor) && forall s | old(cursor) <= s < cursor :: !Visits(chunks, wanted, s)
      ensures !found ==> forall s | old(cursor) <= s :: !Visits(chunks, wanted, s)
    {
      while IsEmpty(pending)
        invariant Valid() && cursor >= old(cursor) && forall s | old(cursor) <= s < cursor :: !Visits(chunks, wanted, s)
        decreases CHUNK_COUNT - chunkIndex, if IsEmpty(pending) then 1 else 0
      {
        if chunkIndex >= CHUNK_COUNT { return false; }
        cursor := chunkIndex * CHUNK_SIZE;
        if chunks[chunkIndex].Some? { pending := MaskOf(chunks[chunkIndex].value, wanted); }
        if IsEmpty(pending) {
          forall s | cursor <= s < (chunkIndex + 1) * CHUNK_SIZE
            ensures !Visits(chunks, wanted, s)
          {
            Inside(chunkIndex, s);
          }
          chunkIndex := chunkIndex + 1;
        }
      }
      found := true;
    }

    lemma Inside(i: nat, s: nat)
      requires i * CHUNK_SIZE <= s < (i + 1) * CHUNK_SIZE
      ensures s / CHUNK_SIZE == i && s % CHUNK_SIZE == s - i * CHUNK_SIZE
    {
    }

    /** Yields the lowest slot of interest that was not visited yet, and nothing once all were. */
    method Next() returns (slot: Option<nat>)
      requires Valid()
      modifies this`chunkIndex, this`pending, this`cursor
      ensures Valid()
      ensures match slot
              case None => forall s | old(cursor) <= s :: !Visits(chunks, wanted, s)
              case Some(at) =>
                && at >= old(cursor) && Visits(chunks, wanted, at) && cursor == at + 1
                && forall s | old(cursor) <= s < at :: !Visits(chunks, wanted, s)
    {
      var found := LoadChunk();
      if !found { return None; }
      var offset := Lowest(pending);
      var at := chunkIndex * CHUNK_SIZE + offset;
      Inside(chunkIndex, at);
      forall s | cursor <= s < at ensures !Visits(chunks, wanted, s) { Inside(chunkIndex, s); }
      ghost var rest := pending[offset := false];
      pending := pending[offset := false];
      cursor := at + 1;
      if IsEmpty(pending) {
        forall s | cursor <= s < (chunkIndex + 1) * CHUNK_SIZE ensures !Visits(chunks, wanted, s) {
          Inside(chunkIndex, s);
          assert !rest[s - chunkIndex * CHUNK_SIZE];
        }
        chunkIndex := chunkIndex + 1;
      }
      slot := Some(at);
    }
  }

  /** Visiting everything lists exactly the slots of interest, in increasing order. */
  method VisitAll(chunks: Chunks, wanted: Wanted) returns (slots: seq<nat>)
    ensures forall i, j | 0 <= i < j < |slots| :: slots[i] < slots[j]
    ensures forall s: nat :: s in slots <==> Visits(chunks, wanted, s)
  {
    var it := new Iterator(chunks, wanted);
    slots := [];
    while true
      invariant it.Valid() && it.chunks == chunks && it.wanted == wanted && it.cursor <= CHUNK_COUNT * CHUNK_SIZE
      invariant forall i, j | 0 <= i < j < |slots| :: slots[i] < slots[j]
      invariant forall i | 0 <= i < |slots| :: slots[i] < it.cursor && Visits(chunks, wanted, slots[i])
      invariant forall s: nat | s < it.cursor && Visits(chunks, wanted, s) :: s in slots
      decreases CHUNK_COUNT * CHUNK_SIZE - it.cursor
    {
      var next := it.Next();
      if next.None? { break; }
      slots := slots + [next.value];
    }
  }

  /** The chunks a live snapshot refers to are whole. */
  ghost predicate Readable(store: Store, id: nat) {
    && id in store.snaps && |store.snaps[id].chunks| == CHUNK_COUNT
    && forall i | 0 <= i < CHUNK_COUNT && store.snaps[id].chunks[i].Some? ::
         && store.snaps[id].chunks[i].value in store.chunks
         && |store.chunks[store.snaps[id].chunks[i].value].places| == CHUNK_SIZE
  }

  lemma LiveIsReadable(store: Store, id: nat)
    requires StoreInv(store) && id in store.snaps
    ensures Readable(store, id)
  {
    var s := store.snaps[id];
    assert SnapshotOk(store.chunks, s);
    forall i | 0 <= i < CHUNK_COUNT && s.chunks[i].Some?
      ensures |store.chunks[s.chunks[i].value].places| == CHUNK_SIZE
    {
      assert ChunkOk(store, s.chunks[i].value);
    }
  }

  function ChunksOf(store: Store, id: nat): Chunks
    requires Readable(store, id)
  {
    seq(CHUNK_COUNT, i requires 0 <= i < CHUNK_COUNT =>
      if store.snaps[id].chunks[i].None? then None else Some(store.chunks[store.snaps[id].chunks[i].value].places))
  }

  lemma VisitsWhatIsThere(store: Store, id: nat, wanted: Wanted, slot: nat)
    requires Readable(store, id)
    ensures Visits(ChunksOf(store, id), wanted, slot) <==> Wants(wanted, At(store.chunks, store.snaps[id], slot))
  {
  }

  /** Iterating a live snapshot yields exactly its occupied slots, or the eligible ones, in
      increasing order. */
  method VisitSnapshot(store: Store, id: nat, wanted: Wanted) returns (slots: seq<nat>)
    requires StoreInv(store) && id in store.snaps
    ensures forall i, j | 0 <= i < j < |slots| :: slots[i] < slots[j]
    ensures forall s: nat :: s in slots <==> Wants(wanted, At(store.chunks, store.snaps[id], s))
  {
    hide StoreInv, Visits, At, ChunksOf, Wants;
    LiveIsReadable(store, id);
    slots := VisitAll(ChunksOf(store, id), wanted);
    forall s: nat ensures s in slots <==> Wants(wanted, At(store.chunks, store.snaps[id], s)) {
      VisitsWhatIsThere(store, id, wanted, s);
    }
  }
}

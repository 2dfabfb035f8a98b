/**
 The routing table itself: the source's probe, rebuild and swap-remove loops over its two
 arrays, proved to implement a finite map from ufrag to entry.
 */
module RoutingTable {
  import opened Wrappers
  import opened RoutingIndex

  // ------------------------------------------------------- the map it implements

  /** The routes a dense array of entries with distinct keys stands for. */
  ghost function Routes(entries: seq<Entry>): map<Ufrag, Entry> {
    if entries == [] then map[]
    else
      var n := |entries| - 1;
      Routes(entries[..n])[entries[n].ufrag := entries[n]]
  }

  lemma {:induction false} RoutesAre(entries: seq<Entry>)
    requires DistinctKeys(entries)
    ensures forall i | 0 <= i < |entries| ::
      entries[i].ufrag in Routes(entries) && Routes(entries)[entries[i].ufrag] == entries[i]
    ensures forall u | u in Routes(entries) :: exists i :: 0 <= i < |entries| && entries[i].ufrag == u
  {
    if entries != [] {
      var n := |entries| - 1;
      RoutesAre(entries[..n]);
      forall u | u in Routes(entries) ensures exists i :: 0 <= i < |entries| && entries[i].ufrag == u {
        if u != entries[n].ufrag {
          var i :| 0 <= i < n && entries[..n][i].ufrag == u;
          assert entries[i].ufrag == u;
        } else {
          assert entries[n].ufrag == u;
        }
      }
    }
  }

  /** Two arrays with the same entries in any order stand for the same routes. */
  lemma RoutesEqual(entries: seq<Entry>, m: map<Ufrag, Entry>)
    requires DistinctKeys(entries)
    requires forall i | 0 <= i < |entries| :: entries[i].ufrag in m && m[entries[i].ufrag] == entries[i]
    requires forall u | u in m :: exists i :: 0 <= i < |entries| && entries[i].ufrag == u
    ensures Routes(entries) == m
  {
    RoutesAre(entries);
  }

  lemma SwapRemoveAt(entries: seq<Entry>, i: nat)
    requires DistinctKeys(entries) && i < |entries|
    ensures var left := SwapRemove(entries, i); var last := |entries| - 1;
      && |left| == last && DistinctKeys(left)
      && (forall j | 0 <= j < last && j != i :: left[j] == entries[j])
      && (i < last ==> left[i] == entries[last])
  {
  }

  lemma SwapRemoveIsRemoval(entries: seq<Entry>, i: nat)
    requires DistinctKeys(entries) && i < |entries|
    ensures DistinctKeys(SwapRemove(entries, i))
    ensures Routes(SwapRemove(entries, i)) == Routes(entries) - {entries[i].ufrag}
  {
    hide Routes, SwapRemove;
    RoutesAre(entries);
    SwapRemoveAt(entries, i);
    var last, left, m := |entries| - 1, SwapRemove(entries, i), Routes(entries) - {entries[i].ufrag};
    forall j | 0 <= j < |left| ensures left[j].ufrag in m && m[left[j].ufrag] == left[j] {
      assert left[j] == entries[if j == i then last else j];
    }
    forall u | u in m ensures exists j :: 0 <= j < |left| && left[j].ufrag == u {
      var j :| 0 <= j < |entries| && entries[j].ufrag == u;
      if j == last { assert left[i].ufrag == u; } else { assert left[j].ufrag == u; }
    }
    RoutesEqual(left, m);
  }

  /** The loop of `unregister_fd`: a removed place is looked at again. */
  function DropFd(entries: seq<Entry>, fd: int, i: nat): seq<Entry>
    requires i <= |entries|
    decreases |entries| - i
  {
    if i == |entries| then entries
    else if entries[i].fd == fd then DropFd(SwapRemove(entries, i), fd, i)
    else DropFd(entries, fd, i + 1)
  }

  /** Unregistering a socket removes exactly its entries. */
  lemma {:induction false} DropFdIsFilter(entries: seq<Entry>, fd: int, i: nat)
    requires DistinctKeys(entries) && i <= |entries| && forall j | 0 <= j < i :: entries[j].fd != fd
    ensures DistinctKeys(DropFd(entries, fd, i))
    ensures Routes(DropFd(entries, fd, i)) ==
      map u | u in Routes(entries) && Routes(entries)[u].fd != fd :: Routes(entries)[u]
    decreases |entries| - i
  {
    hide Routes, SwapRemove;
    RoutesAre(entries);
    if i == |entries| {
      forall u | u in Routes(entries) ensures Routes(entries)[u].fd != fd {
        var j :| 0 <= j < |entries| && entries[j].ufrag == u;
      }
    } else if entries[i].fd == fd {
      SwapRemoveAt(entries, i);
      SwapRemoveIsRemoval(entries, i);
      DropFdIsFilter(SwapRemove(entries, i), fd, i);
    } else {
      DropFdIsFilter(entries, fd, i + 1);
    }
  }

  lemma AppendIsInsertion(entries: seq<Entry>, e: Entry)
    ensures Routes(entries + [e]) == Routes(entries)[e.ufrag := e]
  {
    assert (entries + [e])[..|entries|] == entries;
  }

  /** After the removed slot became a tombstone and the last entry was copied over the removed
      one, a probe for the moved key stops at its old slot. */
  lemma MovedIsFound(entries: seq<Entry>, index: seq<HashSlot>, dist: seq<nat>, i: nat, stop: nat)
    requires IndexOk(entries, index, dist) && i < |entries| - 1 && stop < HASH_SLOTS
    requires
      var last := |entries| - 1; var key := entries[last].ufrag; var h := Hash(key);
      var copied := entries[i := entries[last]];
      var tombed := index[At(Hash(entries[i].ufrag), dist[i]) := Deleted];
      && (forall j: nat | j < stop :: !Matches(copied, tombed[At(h, j)], key, h))
      && (Matches(copied, tombed[At(h, stop)], key, h) || tombed[At(h, stop)].Empty?)
    ensures stop == dist[|entries| - 1]
    ensures var tombed := index[At(Hash(entries[i].ufrag), dist[i]) := Deleted];
      tombed[At(Hash(entries[|entries| - 1].ufrag), stop)] == index[At(Hash(entries[|entries| - 1].ufrag), stop)]
      == Used(Hash(entries[|entries| - 1].ufrag), |entries| - 1)
  {
    hide Hash;
    var last := |entries| - 1;
    var key, hi := entries[last].ufrag, Hash(entries[i].ufrag);
    var h, d, copied, tombed := Hash(key), dist[last], entries[i := entries[last]], index[At(hi, dist[i]) := Deleted];
    assert Indexed(entries, index, dist, i) && Indexed(entries, index, dist, last);
    PathGrows(index, At(hi, dist[i]), Deleted, h, d);
    forall p | 0 <= p < HASH_SLOTS && Matches(copied, tombed[p], key, h) ensures p == At(h, d) {
      assert Backed(entries, index, dist, p);
      if index[p].index == i { assert false; }
      MatchIsEntry(entries, index, dist, p, last, h);
    }
    StopsAtOnlyMatch(copied, tombed, key, h, d, stop);
  }

  // ------------------------------------------------------------------- the table

  datatype RegisterResult = RegisterOk | InvalidArgument | OwnershipConflict | TableFull

  /** What a prepare hands out; it is active until it is committed or cancelled. */
  datatype Reservation = Reservation(ufrag: Ufrag, room: int, fd: int, answer: Pending, generation: nat,
                                     entryIndex: nat, newEntry: bool, active: bool)

  const NO_ANSWER := Pending(0, false, 0, 0)

  /** The next 32-bit generation; zero is skipped. */
  function NextGeneration(g: nat): (r: nat)
    ensures r > 0
  {
    var n := (g + 1) % 0x1_0000_0000;
    if n == 0 then 1 else n
  }

  const UFRAG_BYTES: nat := 32

  function NewEntry(ufrag: Ufrag, room: int, fd: int): Entry { Entry(ufrag, room, fd, None, NO_ANSWER) }

  /** What a prepare answers, in terms of the map alone. */
  ghost function PrepareResult(m: map<Ufrag, Entry>, ufrag: Ufrag, room: int, fd: int): RegisterResult {
    if fd < 0 || |ufrag| == 0 || |ufrag| >= UFRAG_BYTES then InvalidArgument
    else if ufrag in m then (if m[ufrag].room == room && m[ufrag].fd == fd then RegisterOk else OwnershipConflict)
    else if |m| == MAX_MAPPINGS then TableFull
    else RegisterOk
  }

  /** The reserved place still holds the reserved key for the same room and socket. */
  ghost predicate Owned(entries: seq<Entry>, r: Reservation) {
    r.entryIndex < |entries| && entries[r.entryIndex].ufrag == r.ufrag
    && entries[r.entryIndex].room == r.room && entries[r.entryIndex].fd == r.fd
  }

  function PublishedAnswer(was: Pending, answer: Pending, generation: nat): Pending {
    Pending(generation, true, if was.peerId != 0 then was.peerId else answer.peerId, answer.payload)
  }

  function Published(e: Entry, r: Reservation): Entry {
    e.(room := r.room, fd := r.fd, pending := PublishedAnswer(e.pending, r.answer, r.generation))
  }

  lemma OwnedIsFound(entries: seq<Entry>, r: Reservation, found: Option<nat>)
    requires DistinctKeys(entries)
    requires match found
             case Some(i) => i < |entries| && entries[i].ufrag == r.ufrag
             case None => forall i | 0 <= i < |entries| :: entries[i].ufrag != r.ufrag
    ensures Owned(entries, r) <==>
      found == Some(r.entryIndex) && entries[r.entryIndex].room == r.room && entries[r.entryIndex].fd == r.fd
  {
  }

  /** The map has one key for every entry. */
  lemma {:induction false} RoutesCount(entries: seq<Entry>)
    requires DistinctKeys(entries)
    ensures |Routes(entries)| == |entries|
  {
    if entries != [] {
      var n := |entries| - 1;
      RoutesAre(entries[..n]);
      RoutesCount(entries[..n]);
      assert Routes(entries).Keys == Routes(entries[..n]).Keys + {entries[n].ufrag};
    }
  }

  lemma OverwriteIsUpdate(entries: seq<Entry>, i: nat, e: Entry)
    requires DistinctKeys(entries) && i < |entries| && e.ufrag == entries[i].ufrag
    ensures Routes(entries[i := e]) == Routes(entries)[e.ufrag := e]
  {
    hide Routes;
    RoutesAre(entries);
    var m, es := Routes(entries)[e.ufrag := e], entries[i := e];
    forall u | u in m ensures exists j :: 0 <= j < |es| && es[j].ufrag == u {
      var j :| 0 <= j < |entries| && entries[j].ufrag == u;
      assert es[j].ufrag == u;
    }
    RoutesEqual(es, m);
  }

  lemma OverwriteKeepsIndex(entries: seq<Entry>, index: seq<HashSlot>, dist: seq<nat>, i: nat, e: Entry)
    requires IndexOk(entries, index, dist) && i < |entries| && e.ufrag == entries[i].ufrag
    ensures IndexOk(entries[i := e], index, dist)
  {
    hide Hash;
    var es := entries[i := e];
    forall j | 0 <= j < |es| ensures Indexed(es, index, dist, j) { assert Indexed(entries, index, dist, j); }
    forall p | 0 <= p < HASH_SLOTS ensures Backed(es, index, dist, p) { assert Backed(entries, index, dist, p); }
  }

  lemma PreparedIsOwned(before: map<Ufrag, Entry>, after: map<Ufrag, Entry>, ufrag: Ufrag, room: int, fd: int,
                        result: RegisterResult)
    requires result == PrepareResult(before, ufrag, room, fd) == RegisterOk
    requires after == if ufrag !in before then before[ufrag := NewEntry(ufrag, room, fd)] else before
    ensures ufrag in after && after[ufrag].room == room && after[ufrag].fd == fd
  {
  }

  class Table {
    var entries: array<Entry>
    var index: array<HashSlot>
    var count: nat
    var deleted: nat
    ghost var dist: seq<nat>

    /** The first `n` entries are indexed, and no others. */
    ghost predicate IndexesFirst(n: nat)
      reads this, entries, index
    {
      && entries.Length == MAX_MAPPINGS && index.Length == HASH_SLOTS && n <= count <= MAX_MAPPINGS
      && IndexOk(entries[..n], index[..], dist)
      && CountUsed(index[..]) == n && CountDeleted(index[..]) == deleted
      && n + deleted < HASH_SLOTS
    }

    ghost predicate Valid()
      reads this, entries, index
    {
      IndexesFirst(count)
    }

    ghost function Dense(): seq<Entry>
      requires count <= entries.Length
      reads this, entries
    {
      entries[..count]
    }

    constructor ()
      ensures Valid() && fresh(entries) && fresh(index) && Dense() == []
    {
      var blank := Entry([], 0, 0, None, NO_ANSWER);
      entries := new Entry[MAX_MAPPINGS](_ => blank);
      index := new HashSlot[HASH_SLOTS](_ => Empty);
      count, deleted, dist := 0, 0, [];
      new;
      EmptyIndexCounts(index[..]);
    }

    /** The probe loop.  It stops at the first slot that matches the key or is empty; an
        insertion then takes the first tombstone it passed, if there was one. */
    method Probe(key: Ufrag, hash: nat, forInsert: bool) returns (slot: nat, ghost k: nat, ghost stop: nat)
      requires index.Length == HASH_SLOTS && count <= entries.Length
      requires CountUsed(index[..]) + CountDeleted(index[..]) < HASH_SLOTS
      ensures k <= stop < HASH_SLOTS && slot == At(hash, k) && Path(index[..], hash, stop)
      ensures forall j: nat | j < stop :: !Matches(Dense(), index[..][At(hash, j)], key, hash)
      ensures if Matches(Dense(), index[At(hash, stop)], key, hash) then k == stop
              else index[At(hash, stop)].Empty? && (k == stop || (forInsert && index[slot].Deleted?))
    {
      hide Hash;
      var firstDeleted := HASH_SLOTS;
      k := 0;
      for probe := 0 to HASH_SLOTS
        invariant Path(index[..], hash, probe)
        invariant forall j: nat | j < probe :: !Matches(Dense(), index[..][At(hash, j)], key, hash)
        invariant firstDeleted < HASH_SLOTS ==>
          forInsert && k < probe && firstDeleted == At(hash, k) && index[firstDeleted].Deleted?
      {
        slot := At(hash, probe);
        stop := probe;
        if index[slot].Empty? {
          if forInsert && firstDeleted < HASH_SLOTS { slot := firstDeleted; } else { k := probe; }
          return;
        }
        if index[slot].Deleted? {
          if forInsert && firstDeleted == HASH_SLOTS { firstDeleted, k := slot, probe; }
        } else if index[slot].hash == hash && index[slot].index < count && entries[index[slot].index].ufrag == key {
          k := probe;
          return;
        }
      }
      // Not reached: some slot is empty, and the probe sequence visits every slot.
      SomeSlotEmpty(index[..]);
      ghost var p :| 0 <= p < HASH_SLOTS && index[..][p].Empty?;
      ghost var d := DistanceTo(hash, p);
      assert false;
    }

    /** Where a probe for an indexed key, or for a key that is not there, stops. */
    lemma ProbeStops(n: nat, key: Ufrag, stop: nat)
      requires IndexesFirst(n) && stop < HASH_SLOTS
      requires var h := Hash(key);
        && (forall j: nat | j < stop :: !Matches(Dense(), index[..][At(h, j)], key, h))
        && (Matches(Dense(), index[At(h, stop)], key, h) || index[At(h, stop)].Empty?)
      ensures forall i | 0 <= i < n && entries[i].ufrag == key ::
        stop == dist[i] && index[At(Hash(key), stop)] == Used(Hash(key), i)
      ensures (forall i | 0 <= i < n :: entries[i].ufrag != key) ==> index[At(Hash(key), stop)].Empty?
    {
      hide Hash;
      var h, es, ix := Hash(key), entries[..n], index[..];
      forall p | 0 <= p < HASH_SLOTS && Matches(Dense(), ix[p], key, h) ensures Matches(es, ix[p], key, h) {
        assert Backed(es, ix, dist, p);
      }
      forall i | 0 <= i < n && entries[i].ufrag == key ensures stop == dist[i] && index[At(h, stop)] == Used(h, i) {
        assert Indexed(es, ix, dist, i);
        assert es[i].ufrag == key;
        forall p | 0 <= p < HASH_SLOTS && Matches(Dense(), ix[p], key, h) ensures p == At(h, dist[i]) {
          MatchIsEntry(es, ix, dist, p, i, h);
        }
        StopsAtOnlyMatch(Dense(), ix, key, h, dist[i], stop);
      }
      if Matches(es, ix[At(h, stop)], key, h) { assert es[ix[At(h, stop)].index].ufrag == key; }
    }

    /** Indexes the entry after the first `i`; with a free slot around this always succeeds. */
    method IndexEntry(i: nat) returns (ok: bool)
      requires IndexesFirst(i) && i < MAX_MAPPINGS
      requires i + deleted + 1 < HASH_SLOTS
      requires forall j | 0 <= j < i :: entries[j].ufrag != entries[i].ufrag
      modifies this`deleted, this`dist, index
      ensures ok && index.Length == HASH_SLOTS
      ensures IndexOk(entries[..i + 1], index[..], dist)
      ensures CountUsed(index[..]) == i + 1 && CountDeleted(index[..]) == deleted <= old(deleted)
    {
      hide Hash;
      var hash := Hash(entries[i].ufrag);
      var slot, k, stop := Probe(entries[i].ufrag, hash, true);
      ProbeStops(i, entries[i].ufrag, stop);
      ghost var ix := index[..];
      InsertKeeps(entries[..i], ix, dist, entries[i], k);
      CountsAfterUpdate(ix, slot, Used(hash, i));
      if index[slot].Deleted? && deleted > 0 { deleted := deleted - 1; }
      index[slot] := Used(hash, i);
      dist := dist + [k];
      assert index[..] == ix[slot := Used(hash, i)];
      assert entries[..i + 1] == entries[..i] + [entries[i]];
      ok := true;
    }

    /** Indexes every entry afresh, without tombstones. */
    method Rebuild() returns (ok: bool)
      requires Valid()
      modifies this`deleted, this`dist, index
      ensures ok && Valid() && deleted == 0
    {
      hide Hash;
      assert DistinctKeys(entries[..count]);
      for i := 0 to HASH_SLOTS
        invariant forall p | 0 <= p < i :: index[p].Empty?
      {
        index[i] := Empty;
      }
      deleted, dist := 0, [];
      EmptyIndexCounts(index[..]);
      for i := 0 to count
        invariant IndexesFirst(i) && deleted == 0
      {
        assert forall j | 0 <= j < i :: entries[..count][j].ufrag != entries[..count][i].ufrag;
        var indexed := IndexEntry(i);
        if !indexed { return false; }
      }
      ok := true;
    }

    /** The entry of a key, exactly when the key is live. */
    method FindEntry(key: Ufrag) returns (found: Option<nat>)
      requires Valid()
      ensures match found
              case Some(i) => i < count && entries[i].ufrag == key
              case None => forall i | 0 <= i < count :: entries[i].ufrag != key
    {
      hide Hash;
      var hash := Hash(key);
      var slot, k, stop := Probe(key, hash, false);
      ProbeStops(count, key, stop);
      found := if index[slot].Used? && index[slot].index < count then Some(index[slot].index) else None;
    }

    /** Turns the slot of entry `i` into a tombstone. */
    method RemoveIndex(i: nat)
      requires Valid() && i < count
      modifies this`deleted, index
      ensures index[..] == old(index[..])[At(Hash(entries[i].ufrag), dist[i]) := Deleted]
      ensures CountUsed(index[..]) == count - 1 && CountDeleted(index[..]) == deleted == old(deleted) + 1
    {
      hide Hash;
      assert Indexed(entries[..count], index[..], dist, i);
      var slot, k, stop := Probe(entries[i].ufrag, Hash(entries[i].ufrag), false);
      ProbeStops(count, entries[i].ufrag, stop);
      CountsAfterUpdate(index[..], slot, Deleted);
      if index[slot].Used? && index[slot].index == i {
        index[slot] := Deleted;
        deleted := deleted + 1;
      }
    }

    /** Points the slot of the moved entry to its new place; it always succeeds. */
    method UpdateIndex(ghost was: seq<Entry>, ghost ix: seq<HashSlot>, newIndex: nat) returns (ok: bool)
      requires newIndex < count - 1 && |was| == count <= entries.Length && Dense() == was[newIndex := was[|was| - 1]]
      requires IndexOk(was, ix, dist) && index.Length == HASH_SLOTS
      requires index[..] == ix[At(Hash(was[newIndex].ufrag), dist[newIndex]) := Deleted]
      requires CountUsed(index[..]) + CountDeleted(index[..]) < HASH_SLOTS
      modifies index
      ensures ok && index[..] == RemovedIndex(was, ix, dist, newIndex)
      ensures CountUsed(index[..]) == old(CountUsed(index[..]))
      ensures CountDeleted(index[..]) == old(CountDeleted(index[..]))
    {
      hide Hash;
      var last := count - 1;
      var key := entries[newIndex].ufrag;
      assert key == was[last].ufrag by { assert Dense()[newIndex] == was[last]; }
      var hash := Hash(key);
      var slot, k, stop := Probe(key, hash, false);
      MovedIsFound(was, ix, dist, newIndex, stop);
      CountsAfterUpdate(index[..], slot, Used(hash, newIndex));
      if !index[slot].Used? || index[slot].index != last { return false; }
      index[slot] := Used(hash, newIndex);
      ok := true;
    }

    /** Removes an entry and moves the last one into its place.  The moved entry is always
        found in the index again, so the source's abort is never reached. */
    method RemoveEntryAt(i: nat)
      requires Valid() && i < count
      modifies this`count, this`deleted, this`dist, entries, index
      ensures Valid() && Dense() == SwapRemove(old(Dense()), i)
      ensures count == old(count) - 1 && deleted == old(deleted) + 1
    {
      hide Hash;
      ghost var es, ix := entries[..count], index[..];
      var last := count - 1;
      RemoveKeeps(es, ix, dist, i);
      RemoveIndex(i);
      if i != last {
        entries[i] := entries[last];
        assert Dense() == es[i := es[last]];
        var ok := UpdateIndex(es, ix, i);
        if !ok { assert false; }
      }
      count := count - 1;
      entries[count] := Entry([], 0, 0, None, NO_ANSWER);
      dist := dist[i := dist[last]][..last];
      assert entries[..count] == SwapRemove(es, i);
    }

    /** The map from ufrag to entry that the table stands for. */
    ghost function Map(): map<Ufrag, Entry>
      requires count <= entries.Length
      reads this, entries
    {
      Routes(Dense())
    }

    /** What finding an entry says about the map. */
    lemma FoundIsMapped(key: Ufrag, found: Option<nat>)
      requires Valid()
      requires match found
               case Some(i) => i < count && entries[i].ufrag == key
               case None => forall i | 0 <= i < count :: entries[i].ufrag != key
      ensures found.Some? <==> key in Map()
      ensures found.Some? ==> Map()[key] == entries[found.value]
    {
      hide Hash, Routes;
      RoutesAre(Dense());
      if found.Some? { assert Dense()[found.value].ufrag == key; }
    }

    /** Overwriting an entry without touching its key updates the map at that key. */
    method Overwrite(i: nat, e: Entry)
      requires Valid() && i < count && e.ufrag == entries[i].ufrag
      modifies entries
      ensures Valid() && Dense() == old(Dense())[i := e] && Map() == old(Map())[e.ufrag := e]
    {
      hide Hash, Routes;
      ghost var es := Dense();
      OverwriteIsUpdate(es, i, e);
      OverwriteKeepsIndex(es, index[..], dist, i, e);
      entries[i] := e;
      assert entries[..count] == es[i := e];
    }

    /** Reserves a place for an answer.  Reports a full table only when every one of the 32768
        places holds a live entry, and a conflict exactly when another room or socket owns the
        key; otherwise the map changes only by the new key. */
    method PrepareAnswer(ufrag: Ufrag, room: int, fd: int, answer: Pending)
      returns (result: RegisterResult, reserved: Option<Reservation>)
      requires Valid()
      modifies this`count, this`deleted, this`dist, entries, index
      ensures Valid()
      ensures result == PrepareResult(old(Map()), ufrag, room, fd)
      ensures result.RegisterOk? == reserved.Some?
      ensures ufrag in old(Map()) ==> Dense() == old(Dense())
      ensures Map() ==
        if result.RegisterOk? && ufrag !in old(Map()) then old(Map())[ufrag := NewEntry(ufrag, room, fd)]
        else old(Map())
      ensures match reserved
              case None => true
              case Some(r) =>
                && r == Reservation(ufrag, room, fd, answer, r.generation, r.entryIndex, ufrag !in old(Map()), true)
                && r.entryIndex < count && entries[r.entryIndex] == Map()[ufrag]
                && r.generation == NextGeneration(Map()[ufrag].pending.generation)
    {
      hide Hash, Routes;
      reserved := None;
      if fd < 0 || |ufrag| == 0 || |ufrag| >= UFRAG_BYTES { return InvalidArgument, None; }
      var found := FindEntry(ufrag);
      FoundIsMapped(ufrag, found);
      ghost var es := Dense();
      RoutesCount(es);
      if found.Some? && (entries[found.value].room != room || entries[found.value].fd != fd) {
        return OwnershipConflict, None;
      }
      var i := count;
      match found {
        case Some(at) => i := at;
        case None =>
          if count >= MAX_MAPPINGS { return TableFull, None; }
          if deleted > count {
            var ok := Rebuild();
            if !ok { return TableFull, None; }
          }
          entries[i] := NewEntry(ufrag, room, fd);
          assert entries[..count] == es;
          var indexed := IndexEntry(i);
          if !indexed { return TableFull, None; }
          assert entries[..count + 1] == es + [entries[i]];
          count := count + 1;
          AppendIsInsertion(es, entries[i]);
      }
      FoundIsMapped(ufrag, Some(i));
      result := RegisterOk;
      reserved := Some(Reservation(ufrag, room, fd, answer, NextGeneration(entries[i].pending.generation), i,
                                   found.None?, true));
    }

    /** Publishes a reserved answer if its entry is still where it was reserved.  Whatever comes of
        it, the reservation is used up. */
    method CommitAnswer(r: Reservation) returns (ok: bool, after: Reservation)
      requires Valid()
      modifies entries
      ensures Valid() && ok == (r.active && Owned(old(Dense()), r)) && after == r.(active := false)
      ensures Map() == if ok then old(Map())[r.ufrag := Published(old(Dense())[r.entryIndex], r)] else old(Map())
      ensures Dense() == if ok then old(Dense())[r.entryIndex := Map()[r.ufrag]] else old(Dense())
    {
      hide Hash, Routes;
      ok, after := false, r.(active := false);
      if !r.active { return; }
      var found := FindEntry(r.ufrag);
      FoundIsMapped(r.ufrag, found);
      OwnedIsFound(Dense(), r, found);
      if found.None? || found.value != r.entryIndex { return; }
      if entries[found.value].room != r.room || entries[found.value].fd != r.fd { return; }
      Overwrite(found.value, Published(entries[found.value], r));
      ok := true;
    }

    /** Gives a reservation back: the entry goes exactly when the reservation made it, is still
        active, and no answer was published for it. */
    method CancelAnswer(r: Reservation) returns (after: Reservation)
      requires Valid()
      modifies this`count, this`deleted, this`dist, entries, index
      ensures Valid() && after == r.(active := false)
      ensures Map() == if r.active && r.newEntry && Owned(old(Dense()), r)
                          && !old(Dense())[r.entryIndex].pending.valid
                       then old(Map()) - {r.ufrag} else old(Map())
    {
      hide Hash, Routes;
      after := r.(active := false);
      if r.active && r.newEntry {
        var found := FindEntry(r.ufrag);
        FoundIsMapped(r.ufrag, found);
        OwnedIsFound(Dense(), r, found);
        if found.Some? && found.value == r.entryIndex && !entries[found.value].pending.valid
           && entries[found.value].room == r.room && entries[found.value].fd == r.fd {
          SwapRemoveIsRemoval(Dense(), r.entryIndex);
          RemoveEntryAt(r.entryIndex);
          if deleted > count { var _ := Rebuild(); }
        }
      }
    }

    /** Prepare and commit in one go: the commit never fails. */
    method RegisterAnswer(ufrag: Ufrag, room: int, fd: int, answer: Pending)
      returns (result: RegisterResult, generation: nat)
      requires Valid()
      modifies this`count, this`deleted, this`dist, entries, index
      ensures Valid() && result == PrepareResult(old(Map()), ufrag, room, fd)
      ensures if result.RegisterOk? then
                var e := if ufrag in old(Map()) then old(Map())[ufrag] else NewEntry(ufrag, room, fd);
                && generation == NextGeneration(e.pending.generation)
                && Map() == old(Map())[ufrag := e.(pending := PublishedAnswer(e.pending, answer, generation))]
              else Map() == old(Map())
    {
      hide Hash, Routes, PrepareResult;
      var reserved;
      generation := 0;
      result, reserved := PrepareAnswer(ufrag, room, fd, answer);
      if reserved.Some? {
        var r := reserved.value;
        generation := r.generation;
        RoutesAre(Dense());
        assert Dense()[r.entryIndex] == Map()[ufrag];
        assert Owned(Dense(), r) by { PreparedIsOwned(old(Map()), Map(), ufrag, room, fd, result); }
        var ok, _ := CommitAnswer(r);
        if !ok { assert false; }
      }
    }

    /** Looking a route up finds exactly the live keys and records the asking worker. */
    method LookupRoute(ufrag: Ufrag, worker: nat) returns (route: Option<Entry>)
      requires Valid()
      modifies entries
      ensures Valid()
      ensures route == if ufrag in old(Map()) then Some(old(Map())[ufrag].(worker := Some(worker))) else None
      ensures Map() == if ufrag in old(Map()) then old(Map())[ufrag := route.value] else old(Map())
    {
      hide Hash, Routes;
      var found := FindEntry(ufrag);
      FoundIsMapped(ufrag, found);
      if found.None? { return None; }
      var e := entries[found.value].(worker := Some(worker));
      Overwrite(found.value, e);
      route := Some(e);
    }

    /** Withdraws the pending answer of an owned key. */
    method InvalidatePending(ufrag: Ufrag, room: int, fd: int) returns (generation: Option<nat>)
      requires Valid()
      modifies entries
      ensures Valid()
      ensures generation.Some? <==>
        fd >= 0 && ufrag in old(Map()) && old(Map())[ufrag].room == room && old(Map())[ufrag].fd == fd
      ensures match generation
              case None => Map() == old(Map())
              case Some(g) =>
                var e := old(Map())[ufrag];
                && g == NextGeneration(e.pending.generation)
                && Map() == old(Map())[ufrag := e.(pending := e.pending.(generation := g, valid := false))]
      ensures |Dense()| == |old(Dense())|
      ensures forall i | 0 <= i < |Dense()| :: Dense()[i] == old(Dense())[i].(pending := Dense()[i].pending)
    {
      hide Hash, Routes;
      if fd < 0 { return None; }
      var found := FindEntry(ufrag);
      FoundIsMapped(ufrag, found);
      if found.None? || entries[found.value].room != room || entries[found.value].fd != fd { return None; }
      var e := entries[found.value];
      var g := NextGeneration(e.pending.generation);
      Overwrite(found.value, e.(pending := e.pending.(generation := g, valid := false)));
      generation := Some(g);
    }

    /** Unregistering a socket removes exactly the entries of that socket. */
    method UnregisterFd(fd: int)
      requires Valid()
      modifies this`count, this`deleted, this`dist, entries, index
      ensures Valid()
      ensures Map() == map u | u in old(Map()) && old(Map())[u].fd != fd :: old(Map())[u]
    {
      hide Hash, Routes;
      ghost var es := Dense();
      DropFdIsFilter(es, fd, 0);
      var i := 0;
      while i < count
        invariant Valid() && i <= count && DropFd(Dense(), fd, i) == DropFd(es, fd, 0)
        decreases count - i
      {
        assert Dense()[i] == entries[i];
        if entries[i].fd == fd { RemoveEntryAt(i); } else { i := i + 1; }
      }
      if deleted > count {
        var ok := Rebuild();
        if !ok { assert false; }
      }
    }
  }
}

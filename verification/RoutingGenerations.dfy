/**
 Generations of pending answers in the routing table (src/runtime/routing_context.c).  A prepare
 reserves the generation after the entry's current one, a withdrawal steps to it, and a commit
 publishes the reserved one.  A published generation is new exactly if nothing was published or
 withdrawn between prepare and commit.
 */
module RoutingGenerations {
  import opened Wrappers
  import opened RoutingIndex
  import opened RoutingTable

  const GENERATIONS: nat := 0x1_0000_0000

  /** What changes an entry's generation: a withdrawal, or a commit whose reservation was prepared
      after the first `prepared` changes. */
  datatype Change = Withdraw | Publish(prepared: nat)

  /** A commit comes after its prepare. */
  predicate Ordered(changes: seq<Change>) {
    forall k | 0 <= k < |changes| && changes[k].Publish? :: changes[k].prepared <= k
  }

  /** The generation of an entry after its first `k` changes. */
  function Generation(changes: seq<Change>, k: nat): nat
    requires Ordered(changes) && k <= |changes|
    decreases k
  {
    if k == 0 then NO_ANSWER.generation
    else if changes[k - 1].Withdraw? then NextGeneration(Generation(changes, k - 1))
    else NextGeneration(Generation(changes, changes[k - 1].prepared))
  }

  /** Nothing happened to the entry between the prepare and its commit. */
  predicate Timely(changes: seq<Change>) {
    forall k | 0 <= k < |changes| && changes[k].Publish? :: changes[k].prepared == k
  }

  ghost predicate Distinct(changes: seq<Change>)
    requires Ordered(changes)
  {
    forall i, j | 0 <= i < j <= |changes| :: Generation(changes, i) != Generation(changes, j)
  }

  lemma NextIs(g: nat)
    requires g + 1 < GENERATIONS
    ensures NextGeneration(g) == g + 1
  {
  }

  lemma {:induction false} TimelyCounts(changes: seq<Change>, k: nat)
    requires Ordered(changes) && k <= |changes| && k < GENERATIONS
    requires forall i | 0 <= i < k && changes[i].Publish? :: changes[i].prepared == i
    ensures Generation(changes, k) == k
  {
    hide NextGeneration;
    if k > 0 {
      TimelyCounts(changes, k - 1);
      NextIs(k - 1);
    }
  }

  /** The first late commit repeats an earlier generation. */
  lemma LateRepeats(changes: seq<Change>, k: nat)
    requires Ordered(changes) && k < |changes| && k < GENERATIONS
    requires changes[k].Publish? && changes[k].prepared < k
    requires forall i | 0 <= i < k && changes[i].Publish? :: changes[i].prepared == i
    ensures !Distinct(changes)
  {
    var p := changes[k].prepared;
    TimelyCounts(changes, p);
    TimelyCounts(changes, p + 1);
    assert Generation(changes, k + 1) == Generation(changes, p + 1);
  }

  /** Counting past the last generation repeats the first one. */
  lemma WrapRepeats(changes: seq<Change>)
    requires Ordered(changes) && |changes| >= GENERATIONS
    requires forall i | 0 <= i < GENERATIONS && changes[i].Publish? :: changes[i].prepared == i
    ensures !Distinct(changes)
  {
    TimelyCounts(changes, 1);
    TimelyCounts(changes, GENERATIONS - 1);
    assert Generation(changes, GENERATIONS) == Generation(changes, 1);
  }

  lemma {:induction false} FirstLate(changes: seq<Change>, n: nat) returns (k: nat)
    requires Ordered(changes) && n <= |changes|
    requires exists i :: 0 <= i < n && changes[i].Publish? && changes[i].prepared != i
    ensures k < n && changes[k].Publish? && changes[k].prepared < k
    ensures forall i | 0 <= i < k && changes[i].Publish? :: changes[i].prepared == i
  {
    if exists i :: 0 <= i < n - 1 && changes[i].Publish? && changes[i].prepared != i {
      k := FirstLate(changes, n - 1);
    } else {
      k := n - 1;
    }
  }

  /** In every history of an entry: all its generations differ, and so every published one is new,
      if and only if each commit follows its prepare with no other commit and no withdrawal in
      between, and the 32-bit counter did not wrap around. */
  lemma GenerationsAreNewIffTimely(changes: seq<Change>)
    requires Ordered(changes)
    ensures Distinct(changes) <==> Timely(changes) && |changes| < GENERATIONS
  {
    hide Generation;
    var n := if |changes| < GENERATIONS then |changes| else GENERATIONS;
    if exists i :: 0 <= i < n && changes[i].Publish? && changes[i].prepared != i {
      var k := FirstLate(changes, n);
      LateRepeats(changes, k);
    } else if |changes| >= GENERATIONS {
      WrapRepeats(changes);
    } else {
      forall i, j | 0 <= i < j <= |changes| ensures Generation(changes, i) != Generation(changes, j) {
        TimelyCounts(changes, i);
        TimelyCounts(changes, j);
      }
    }
  }

  // --------------------------------------------------------------------- in the table

  /** Two answers prepared for one key are published under the same generation. */
  method PublishesTwice(ufrag: Ufrag, room: int, fd: int, a: Pending, b: Pending)
    returns (first: Option<nat>, second: Option<nat>)
    requires fd >= 0 && 0 < |ufrag| < UFRAG_BYTES
    ensures first == second == Some(1)
  {
    hide Hash, Routes;
    var table := new Table();
    NothingRouted(table);
    var result, x := table.PrepareAnswer(ufrag, room, fd, a);
    var again, y := table.PrepareAnswer(ufrag, room, fd, b);
    first, second := None, None;
    if x.Some? && y.Some? {
      assert Owned(table.Dense(), x.value);
      var ok, used := table.CommitAnswer(x.value);
      if ok { first := Some(x.value.generation); }
      ok, used := table.CommitAnswer(y.value);
      if ok { second := Some(y.value.generation); }
    }
  }

  /** An answer that is withdrawn between prepare and commit is published all the same, under the
      generation of its withdrawal. */
  method PublishesWithdrawn(ufrag: Ufrag, room: int, fd: int, a: Pending)
    returns (withdrawn: Option<nat>, published: Option<nat>)
    requires fd >= 0 && 0 < |ufrag| < UFRAG_BYTES
    ensures withdrawn == published == Some(1)
  {
    hide Hash, Routes;
    var table := new Table();
    NothingRouted(table);
    var result, x := table.PrepareAnswer(ufrag, room, fd, a);
    withdrawn := table.InvalidatePending(ufrag, room, fd);
    published := None;
    if x.Some? {
      var ok, used := table.CommitAnswer(x.value);
      if ok { published := Some(x.value.generation); }
    }
  }

  lemma NothingRouted(table: Table)
    requires table.Valid() && table.Dense() == []
    ensures table.Map() == map[]
  {
  }
}

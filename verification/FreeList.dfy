/**
 The lock-free index pool (src/memory/pool.c): a tagged head and an array of successors,
 changed by compare-and-swap from any number of threads.

 Every atomic load, store and compare-and-swap is one step of the interleaving, under
 sequential consistency.  The tag is unbounded here; the source's is 32 bits wide.
 */
module FreeList {

  type Tid = int
  type Index = int

  const EMPTY: Index := -1

  datatype Head = Head(tag: int, index: Index)

  /** Where a thread stands inside an allocation or a release. */
  datatype Pc =
    | Idle
    | AllocLoaded(seen: Head)               // the head was loaded
    | AllocRead(seen: Head, successor: Index)  // its successor was loaded too
    | FreeLoaded(index: Index, seen: Head)
    | FreeStored(index: Index, seen: Head)  // next[index] was stored

  datatype State = State(
    next: seq<Index>,
    head: Head,
    threads: map<Tid, Pc>,
    held: map<Index, Tid>)   // allocated indices and who answers for them

  datatype Action =
    | AllocStart          // load the head
    | AllocFail           // the loaded head is empty: return NULL
    | AllocLoadNext       // load next[index]
    | AllocCas            // succeed if the head is still the one seen
    | AllocRetry          // a failed or spurious compare-and-swap reloads the head
    | FreeStart(index: Index)
    | FreeStore
    | FreeCas
    | FreeRetry
    | HandOver(index: Index, to: Tid)  // the owner passes a slot to another thread

  /** What initialisation leaves: every index links to the following one. */
  ghost predicate Initialized(s: State) {
    && (forall i | 0 <= i < |s.next| :: s.next[i] == if i + 1 < |s.next| then i + 1 else EMPTY)
    && s.head == Head(0, 0)
    && (forall t | t in s.threads :: s.threads[t] == Idle)
    && s.held == map[]
  }

  /** A run starts with a pool that has a slot. */
  ghost predicate Init(s: State) { |s.next| > 0 && Initialized(s) }

  /** The step is possible: the thread is at the right place, and only owners release. */
  ghost predicate Enabled(s: State, t: Tid, a: Action) {
    && t in s.threads
    && match a
       case AllocStart => s.threads[t].Idle?
       case AllocFail => s.threads[t].AllocLoaded? && s.threads[t].seen.index == EMPTY
       case AllocLoadNext => s.threads[t].AllocLoaded? && s.threads[t].seen.index != EMPTY
       case AllocCas => s.threads[t].AllocRead? && s.head == s.threads[t].seen
       case AllocRetry => s.threads[t].AllocRead?
       case FreeStart(i) => s.threads[t].Idle? && i in s.held && s.held[i] == t
       case FreeStore => s.threads[t].FreeLoaded?
       case FreeCas => s.threads[t].FreeStored? && s.head == s.threads[t].seen
       case FreeRetry => s.threads[t].FreeStored?
       case HandOver(i, to) => s.threads[t].Idle? && to in s.threads && i in s.held && s.held[i] == t
  }

  ghost predicate InRange(s: State, i: Index) { 0 <= i < |s.next| }

  ghost function At(s: State, t: Tid, pc: Pc): State { s.(threads := s.threads[t := pc]) }

  /** The step itself. Outside the array a load or store is undefined in the source; here it
      has no effect, and `AccessInRange` shows that it never happens. */
  ghost function Act(s: State, t: Tid, a: Action): State
    requires Enabled(s, t, a)
  {
    var pc := s.threads[t];
    match a
    case AllocStart => At(s, t, AllocLoaded(s.head))
    case AllocFail => At(s, t, Idle)
    case AllocLoadNext =>
      At(s, t, AllocRead(pc.seen, if InRange(s, pc.seen.index) then s.next[pc.seen.index] else EMPTY))
    case AllocCas =>
      At(s, t, Idle).(head := Head(pc.seen.tag + 1, pc.successor), held := s.held[pc.seen.index := t])
    case AllocRetry => At(s, t, AllocLoaded(s.head))
    case FreeStart(i) => At(s, t, FreeLoaded(i, s.head))
    case FreeStore =>
      var next := if InRange(s, pc.index) then s.next[pc.index := pc.seen.index] else s.next;
      At(s, t, FreeStored(pc.index, pc.seen)).(next := next)
    case FreeCas =>
      At(s, t, Idle).(head := Head(pc.seen.tag + 1, pc.index), held := s.held - {pc.index})
    case FreeRetry => At(s, t, FreeLoaded(pc.index, s.head))
    case HandOver(i, to) => s.(held := s.held[i := to])
  }

  // ---------------------------------------------------------------- invariant

  /** The index at place `i` links to the one after it, the last one to EMPTY. */
  ghost predicate Linked(next: seq<Index>, chain: seq<Index>, i: nat)
    requires i < |chain|
  {
    0 <= chain[i] < |next| && next[chain[i]] == if i + 1 < |chain| then chain[i + 1] else EMPTY
  }

  /** `chain` is what following successors from the head visits: no index twice, ending at EMPTY. */
  ghost predicate IsChain(s: State, chain: seq<Index>) {
    && s.head.index == (if chain == [] then EMPTY else chain[0])
    && (forall i | 0 <= i < |chain| :: Linked(s.next, chain, i))
    && (forall i, j | 0 <= i < j < |chain| :: chain[i] != chain[j])
  }

  /** A head seen earlier: unless the tag moved on, the head is still the same. */
  ghost predicate SeenOk(s: State, seen: Head) {
    && seen.tag <= s.head.tag
    && (seen.tag == s.head.tag ==> seen.index == s.head.index)
    && (seen.index == EMPTY || InRange(s, seen.index))
  }

  ghost predicate ThreadOk(s: State, t: Tid, pc: Pc) {
    match pc
    case Idle => true
    case AllocLoaded(seen) => SeenOk(s, seen)
    case AllocRead(seen, successor) =>
      && SeenOk(s, seen) && InRange(s, seen.index)
      && (seen.tag == s.head.tag ==> successor == s.next[seen.index])
    case FreeLoaded(i, seen) => SeenOk(s, seen) && i in s.held && s.held[i] == t
    case FreeStored(i, seen) =>
      SeenOk(s, seen) && i in s.held && s.held[i] == t && InRange(s, i) && s.next[i] == seen.index
  }

  ghost predicate InvWith(s: State, chain: seq<Index>) {
    && IsChain(s, chain)
    && (forall i | i in s.held :: InRange(s, i))
    && (forall i | 0 <= i < |s.next| :: i in chain <==> i !in s.held)
    && (forall t | t in s.threads :: ThreadOk(s, t, s.threads[t]))
  }

  ghost predicate Inv(s: State) { exists chain :: InvWith(s, chain) }

  /** Initialisation leaves a sound pool exactly if it has a slot: without one the head names an
      index that is not there. */
  lemma InitInv(s: State)
    requires Initialized(s)
    ensures Inv(s) <==> |s.next| > 0
  {
    var chain := seq(|s.next|, i => i);
    forall i | 0 <= i < |s.next| ensures chain[i] == i && i in chain { assert i == chain[i]; }
    if |s.next| > 0 {
      assert InvWith(s, chain);
    } else {
      forall any ensures !InvWith(s, any) { assert any != [] ==> !Linked(s.next, any, 0); }
    }
  }

  /** The chain after a step. */
  ghost function ChainAfter(s: State, t: Tid, a: Action, chain: seq<Index>): seq<Index>
    requires Enabled(s, t, a) && (a.AllocCas? ==> chain != [])
  {
    if a.AllocCas? then chain[1..]
    else if a.FreeCas? then [s.threads[t].index] + chain
    else chain
  }

  /** A successful allocation takes the head of the chain, which nobody holds, and installs
      its true successor; no other thread's interference in between can make it differ. */
  lemma AllocTakesHead(s: State, t: Tid, chain: seq<Index>)
    requires InvWith(s, chain) && Enabled(s, t, AllocCas)
    ensures chain != [] && s.threads[t].seen.index == chain[0] && chain[0] !in s.held
    ensures s.threads[t].successor == (if |chain| > 1 then chain[1] else EMPTY)
  {
    var pc := s.threads[t];
    assert ThreadOk(s, t, pc);
    assert pc.seen == s.head && InRange(s, s.head.index);
    assert chain[0] in chain && Linked(s.next, chain, 0);
  }

  lemma ChainStep(s: State, t: Tid, a: Action, chain: seq<Index>)
    requires InvWith(s, chain) && Enabled(s, t, a)
    ensures a.AllocCas? ==> chain != []
    ensures IsChain(Act(s, t, a), ChainAfter(s, t, a, chain))
    ensures var s' := Act(s, t, a); forall i | 0 <= i < |s'.next| :: i in ChainAfter(s, t, a, chain) <==> i !in s'.held
  {
    assert ThreadOk(s, t, s.threads[t]);
    if a.AllocCas? { AllocTakesHead(s, t, chain); }
    var s', chain' := Act(s, t, a), ChainAfter(s, t, a, chain);
    if a.AllocCas? { assert chain == [chain[0]] + chain'; }
    if a.FreeStore? || a.FreeCas? { assert s.threads[t].index !in chain; }
    forall i | 0 <= i < |chain'| ensures Linked(s'.next, chain', i) {
      if a.AllocCas? {
        assert Linked(s.next, chain, i + 1);
      } else if !a.FreeCas? {
        assert Linked(s.next, chain, i);
      } else if i > 0 {
        assert Linked(s.next, chain, i - 1);
      } else if chain != [] {
        assert Linked(s.next, chain, 0);
      }
    }
  }

  lemma StepKeepsInv(s: State, t: Tid, a: Action, chain: seq<Index>)
    requires InvWith(s, chain) && Enabled(s, t, a)
    ensures a.AllocCas? ==> chain != []
    ensures InvWith(Act(s, t, a), ChainAfter(s, t, a, chain))
  {
    ChainStep(s, t, a, chain);
    if a.AllocCas? { AllocTakesHead(s, t, chain); }
    var s' := Act(s, t, a);
    assert chain != [] ==> Linked(s.next, chain, 0);
    forall u | u in s'.threads ensures ThreadOk(s', u, s'.threads[u]) {
      assert ThreadOk(s, u, s.threads[u]) && ThreadOk(s, t, s.threads[t]);
    }
  }

  // --------------------------------------------------------------------- runs

  ghost predicate Next(s: State, s': State, t: Tid, a: Action) { Enabled(s, t, a) && s' == Act(s, t, a) }

  ghost predicate Steps(s: State, s': State) { exists t, a :: Next(s, s', t, a) }

  /** Every interleaving: a start state and any number of steps by any threads. */
  ghost predicate IsRun(run: seq<State>) {
    && run != [] && Init(run[0])
    && forall i | 0 < i < |run| :: Steps(run[i - 1], run[i])
  }

  lemma {:induction false} RunKeepsInv(run: seq<State>, i: nat)
    requires IsRun(run) && i < |run|
    ensures Inv(run[i])
  {
    if i == 0 {
      InitInv(run[0]);
    } else {
      RunKeepsInv(run, i - 1);
      assert Steps(run[i - 1], run[i]);
      var t, a :| Next(run[i - 1], run[i], t, a);
      var chain :| InvWith(run[i - 1], chain);
      StepKeepsInv(run[i - 1], t, a, chain);
    }
  }

  /** In every reachable state the free indices form one acyclic chain from the head, and
      they are exactly the indices nobody holds: none is lost, none is free and held. */
  lemma FreeChainIsExact(run: seq<State>, i: nat)
    requires IsRun(run) && i < |run|
    ensures var s := run[i];
      exists chain :: IsChain(s, chain) && (forall k | 0 <= k < |s.next| :: k in chain <==> k !in s.held)
  {
    RunKeepsInv(run, i);
    var chain :| InvWith(run[i], chain);
  }

  /** No index is handed out twice: an allocation that succeeds returns one that nobody held. */
  lemma NoDoubleAllocation(run: seq<State>, i: nat, t: Tid)
    requires IsRun(run) && i < |run| && Enabled(run[i], t, AllocCas)
    ensures var s, s' := run[i], Act(run[i], t, AllocCas); var k := s.threads[t].seen.index;
      && InRange(s, k) && k !in s.held && k in s'.held && s'.held[k] == t
      && s'.head.index == s.next[k]
  {
    RunKeepsInv(run, i);
    var chain :| InvWith(run[i], chain);
    AllocTakesHead(run[i], t, chain);
  }

  /** An index stays held until its own holder releases it. */
  lemma HeldUntilReleased(s: State, t: Tid, a: Action, k: Index)
    requires Inv(s) && Enabled(s, t, a) && k in s.held && k !in Act(s, t, a).held
    ensures a.FreeCas? && s.held[k] == t && s.threads[t].index == k
  {
    var chain :| InvWith(s, chain);
    assert ThreadOk(s, t, s.threads[t]);
  }

  /** Loads and stores never leave the array. */
  lemma AccessInRange(run: seq<State>, i: nat, t: Tid)
    requires IsRun(run) && i < |run| && t in run[i].threads
    ensures Enabled(run[i], t, AllocLoadNext) ==> InRange(run[i], run[i].threads[t].seen.index)
    ensures Enabled(run[i], t, FreeStore) ==> InRange(run[i], run[i].threads[t].index)
  {
    RunKeepsInv(run, i);
    var chain :| InvWith(run[i], chain);
    assert ThreadOk(run[i], t, run[i].threads[t]);
  }

  /** An allocation sees the empty head only when every index is held. */
  lemma EmptyMeansExhausted(run: seq<State>, i: nat)
    requires IsRun(run) && i < |run| && run[i].head.index == EMPTY
    ensures forall k | 0 <= k < |run[i].next| :: k in run[i].held
  {
    RunKeepsInv(run, i);
    var chain :| InvWith(run[i], chain);
    assert chain != [] ==> Linked(run[i].next, chain, 0);
  }

  /** The array that initialisation builds, in the source's loop. */
  method InitNext(capacity: nat) returns (next: array<Index>)
    ensures fresh(next) && next.Length == capacity && Initialized(State(next[..], Head(0, 0), map[], map[]))
    ensures capacity > 0 <==> Init(State(next[..], Head(0, 0), map[], map[]))
  {
    next := new Index[capacity];
    for i := 0 to capacity
      invariant forall j | 0 <= j < i :: next[j] == if j + 1 < capacity then j + 1 else EMPTY
    {
      next[i] := if i + 1 < capacity then i + 1 else EMPTY;
    }
  }
}

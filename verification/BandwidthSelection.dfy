/**
 Which streams the bandwidth allocator considers: the at most sixteen smallest distinct keys
 among the eligible inputs, in increasing order, found by insertion into a bounded array.
 */
module BandwidthSelection {
  import opened BandwidthShares

  const MAX_STREAMS: nat := 16

  datatype Key = Key(slot: nat, publisher: nat, kind: Kind, generation: nat)

  /** An input; a kind the allocator does not know is `None` here. */
  datatype Input = Input(key: Key, known: bool, active: bool)

  predicate Eligible(i: Input) { i.active && i.key.publisher != 0 && i.known }

  /** Cameras come before screens, as the source numbers the kinds. */
  predicate Less(a: Key, b: Key) {
    if a.slot != b.slot then a.slot < b.slot
    else if a.publisher != b.publisher then a.publisher < b.publisher
    else if a.kind != b.kind then a.kind == Camera
    else a.generation < b.generation
  }

  lemma LessIsTotal(a: Key, b: Key)
    ensures Less(a, b) || Less(b, a) || a == b
    ensures !(Less(a, b) && Less(b, a)) && !Less(a, a)
  {
  }

  lemma LessIsTransitive(a: Key, b: Key, c: Key)
    requires Less(a, b) && Less(b, c)
    ensures Less(a, c)
  {
  }

  ghost function Keys(inputs: seq<Input>): set<Key>
  {
    set i | 0 <= i < |inputs| && Eligible(inputs[i]) :: inputs[i].key
  }

  ghost predicate Increasing(s: seq<Key>) { forall i, j | 0 <= i < j < |s| :: Less(s[i], s[j]) }

  /** `s` lists the at most sixteen smallest keys of `keys` in increasing order. */
  ghost predicate Smallest(keys: set<Key>, s: seq<Key>) {
    && Increasing(s) && |s| <= MAX_STREAMS
    && (forall i | 0 <= i < |s| :: s[i] in keys)
    && (forall k | k in keys :: k in s || (|s| == MAX_STREAMS && forall i | 0 <= i < |s| :: Less(s[i], k)))
  }

  // ------------------------------------------------------------ the selection is a function

  lemma FirstDifference(keys: set<Key>, s: seq<Key>, t: seq<Key>, i: nat)
    requires Smallest(keys, s) && Smallest(keys, t) && i < |s| && i < |t| && s[..i] == t[..i]
    ensures s[i] == t[i]
  {
    LessIsTotal(s[i], t[i]);
    if Less(s[i], t[i]) { NotBelow(keys, s, t, i); }
    if Less(t[i], s[i]) { NotBelow(keys, t, s, i); }
  }

  /** A smaller key cannot be missing from the other list. */
  lemma NotBelow(keys: set<Key>, s: seq<Key>, t: seq<Key>, i: nat)
    requires Smallest(keys, s) && Smallest(keys, t) && i < |s| && i < |t| && s[..i] == t[..i]
    ensures !Less(s[i], t[i])
  {
    if Less(s[i], t[i]) {
      var k := s[i];
      assert k in keys;
      LessIsTotal(k, t[i]);
    }
  }

  lemma {:induction false} SamePrefix(keys: set<Key>, s: seq<Key>, t: seq<Key>, n: nat)
    requires Smallest(keys, s) && Smallest(keys, t) && n <= |s| && n <= |t|
    ensures s[..n] == t[..n]
  {
    if n > 0 {
      SamePrefix(keys, s, t, n - 1);
      FirstDifference(keys, s, t, n - 1);
      assert s[..n] == s[..n - 1] + [s[n - 1]] && t[..n] == t[..n - 1] + [t[n - 1]];
    }
  }

  /** The set of eligible keys determines the selection. */
  lemma SmallestIsUnique(keys: set<Key>, s: seq<Key>, t: seq<Key>)
    requires Smallest(keys, s) && Smallest(keys, t)
    ensures s == t
  {
    if |s| < |t| { NotLonger(keys, s, t); }
    if |t| < |s| { NotLonger(keys, t, s); }
    SamePrefix(keys, s, t, |s|);
    assert s == s[..|s|] && t == t[..|s|];
  }

  lemma NotLonger(keys: set<Key>, s: seq<Key>, t: seq<Key>)
    requires Smallest(keys, s) && Smallest(keys, t)
    ensures |t| <= |s|
  {
    if |s| < |t| {
      SamePrefix(keys, s, t, |s|);
      ListedIsKey(keys, t, |s|);
    }
  }

  lemma ListedIsKey(keys: set<Key>, s: seq<Key>, i: nat)
    requires Smallest(keys, s) && i < |s|
    ensures s[i] in keys
  {
  }

  // --------------------------------------------------------------------- one more input

  lemma KeysAppend(inputs: seq<Input>, i: nat)
    requires i < |inputs|
    ensures Keys(inputs[..i + 1]) ==
      if Eligible(inputs[i]) then Keys(inputs[..i]) + {inputs[i].key} else Keys(inputs[..i])
  {
    var a, b := inputs[..i], inputs[..i + 1];
    assert forall j | 0 <= j < i :: a[j] == b[j] == inputs[j];
    assert b[i] == inputs[i];
    forall k | k in Keys(b) ensures k in Keys(a) || (Eligible(inputs[i]) && k == inputs[i].key) {
      var j :| 0 <= j < |b| && Eligible(b[j]) && b[j].key == k;
      if j < i { assert Eligible(a[j]) && a[j].key == k; }
    }
    forall k | k in Keys(a) ensures k in Keys(b) {
      var j :| 0 <= j < |a| && Eligible(a[j]) && a[j].key == k;
      assert Eligible(b[j]) && b[j].key == k;
    }
  }

  /** A key that is not smaller than the last of a full list changes nothing. */
  lemma TooLarge(keys: set<Key>, s: seq<Key>, k: Key)
    requires Smallest(keys, s) && |s| == MAX_STREAMS && !Less(k, s[MAX_STREAMS - 1]) && k !in s
    ensures Smallest(keys + {k}, s)
  {
    LessIsTotal(k, s[MAX_STREAMS - 1]);
    forall i | 0 <= i < |s| ensures Less(s[i], k) {
      if i < MAX_STREAMS - 1 { LessIsTransitive(s[i], s[MAX_STREAMS - 1], k); }
    }
  }

  /** Inserting a new key at its place, and dropping the last one if there were sixteen. */
  function Inserted(s: seq<Key>, k: Key, pos: nat): seq<Key>
    requires pos <= |s|
  {
    s[..pos] + [k] + s[pos..if |s| == MAX_STREAMS && pos < MAX_STREAMS then |s| - 1 else |s|]
  }

  lemma InsertedIsIncreasing(s: seq<Key>, k: Key, pos: nat)
    requires Increasing(s) && pos <= |s| <= MAX_STREAMS && (|s| == MAX_STREAMS ==> pos < MAX_STREAMS)
    requires forall i | 0 <= i < pos :: Less(s[i], k)
    requires forall i | pos <= i < |s| :: Less(k, s[i])
    ensures Increasing(Inserted(s, k, pos))
  {
    hide Less;
  }

  lemma InsertKeeps(keys: set<Key>, s: seq<Key>, k: Key, pos: nat)
    requires Smallest(keys, s) && pos <= |s| && (|s| == MAX_STREAMS ==> pos < MAX_STREAMS)
    requires forall i | 0 <= i < pos :: Less(s[i], k)
    requires forall i | pos <= i < |s| :: Less(k, s[i])
    ensures Smallest(keys + {k}, Inserted(s, k, pos))
  {
    hide Less;
    InsertedIsIncreasing(s, k, pos);
    var t := Inserted(s, k, pos);
    var n := |s|;
    assert t[pos] == k;
    assert forall i | 0 <= i < pos :: t[i] == s[i];
    assert forall i | pos < i < |t| :: t[i] == s[i - 1];
    forall x | x in keys + {k} ensures x in t || (|t| == MAX_STREAMS && forall i | 0 <= i < |t| :: Less(t[i], x)) {
      if x in s {
        var j :| 0 <= j < n && s[j] == x;
        if j < pos {
          assert t[j] == x;
        } else if j + 1 < |t| {
          assert t[j + 1] == x;
        } else {
          DroppedIsLargest(s, t, pos, x);
        }
      } else if x != k {
        AboveAll(s, t, k, pos, x);
      }
    }
  }

  /** The key that falls off the end is larger than all that stay. */
  lemma DroppedIsLargest(s: seq<Key>, t: seq<Key>, pos: nat, x: Key)
    requires Increasing(s) && |s| == MAX_STREAMS == |t| && pos < MAX_STREAMS && x == s[MAX_STREAMS - 1]
    requires Less(t[pos], x)
    requires forall i | 0 <= i < pos :: t[i] == s[i]
    requires forall i | pos < i < |t| :: t[i] == s[i - 1]
    ensures forall i | 0 <= i < |t| :: Less(t[i], x)
  {
    hide Less;
  }

  lemma AboveAll(s: seq<Key>, t: seq<Key>, k: Key, pos: nat, x: Key)
    requires |s| == MAX_STREAMS == |t| && pos < MAX_STREAMS && (forall i | 0 <= i < |s| :: Less(s[i], x))
    requires Less(k, s[MAX_STREAMS - 1]) && t[pos] == k
    requires forall i | 0 <= i < pos :: t[i] == s[i]
    requires forall i | pos < i < |t| :: t[i] == s[i - 1]
    ensures forall i | 0 <= i < |t| :: Less(t[i], x)
  {
    LessIsTransitive(k, s[MAX_STREAMS - 1], x);
    hide Less;
  }

  // --------------------------------------------------------------------------- the loops

  /** Whether a key is listed already. */
  method Listed(inputs: seq<Input>, order: array<nat>, n: nat, key: Key) returns (found: bool)
    requires n <= order.Length && forall j | 0 <= j < n :: order[j] < |inputs|
    ensures found <==> exists j :: 0 <= j < n && inputs[order[j]].key == key
  {
    for j := 0 to n
      invariant forall i | 0 <= i < j :: inputs[order[i]].key != key
    {
      if inputs[order[j]].key == key { return true; }
    }
    found := false;
  }

  /** Moves larger keys up by one and puts input `i` in the gap. */
  method InsertInOrder(inputs: seq<Input>, order: array<nat>, last: nat, i: nat) returns (pos: nat)
    requires last < order.Length && i < |inputs| && forall j | 0 <= j < last :: order[j] < |inputs|
    modifies order
    ensures pos <= last
    ensures forall j | 0 <= j < pos :: order[j] == old(order[j])
    ensures order[pos] == i
    ensures forall j | pos < j <= last :: order[j] == old(order[j - 1])
    ensures pos > 0 ==> !Less(inputs[i].key, inputs[old(order[pos - 1])].key)
    ensures forall j | pos <= j < last :: Less(inputs[i].key, inputs[old(order[j])].key)
  {
    hide Less;
    pos := last;
    while pos > 0 && Less(inputs[i].key, inputs[order[pos - 1]].key)
      invariant pos <= last
      invariant forall j | 0 <= j < pos :: order[j] == old(order[j])
      invariant forall j | pos < j <= last :: order[j] == old(order[j - 1])
      invariant forall j | pos <= j < last :: Less(inputs[i].key, inputs[old(order[j])].key)
    {
      order[pos] := order[pos - 1];
      pos := pos - 1;
    }
    order[pos] := i;
  }

  /** The listed keys around the insertion point. */
  lemma PlaceIs(s: seq<Key>, k: Key, pos: nat, n: nat)
    requires Increasing(s) && pos <= n <= |s| && k !in s
    requires pos > 0 ==> !Less(k, s[pos - 1])
    requires forall j | pos <= j < n :: Less(k, s[j])
    requires n == |s| - 1 ==> Less(k, s[n])
    requires n >= |s| - 1
    ensures forall i | 0 <= i < pos :: Less(s[i], k)
    ensures forall i | pos <= i < |s| :: Less(k, s[i])
  {
    if pos > 0 {
      LessIsTotal(k, s[pos - 1]);
      forall i | 0 <= i < pos ensures Less(s[i], k) {
        if i < pos - 1 { LessIsTransitive(s[i], s[pos - 1], k); }
      }
    }
  }

  /** The first `n` places of `order` refer to the inputs with these keys. */
  ghost predicate Lists(inputs: seq<Input>, order: seq<nat>, keys: seq<Key>) {
    && |keys| <= |order| == MAX_STREAMS
    && forall j | 0 <= j < |keys| :: order[j] < |inputs| && keys[j] == inputs[order[j]].key
  }

  lemma AlreadyKnown(known: set<Key>, keys: seq<Key>, k: Key)
    requires Smallest(known, keys) && k in keys
    ensures known + {k} == known
  {
  }

  lemma SizeIsBounded(known: set<Key>, keys: seq<Key>)
    requires Smallest(known, keys)
    ensures |keys| <= MAX_STREAMS
  {
  }

  lemma PlaceAndInsert(known: set<Key>, keys: seq<Key>, k: Key, pos: nat, last: nat)
    requires Smallest(known, keys) && k !in keys && pos <= last
    requires last == (if |keys| < MAX_STREAMS then |keys| else |keys| - 1)
    requires pos > 0 ==> !Less(k, keys[pos - 1])
    requires forall j | pos <= j < last :: Less(k, keys[j])
    requires last < |keys| ==> Less(k, keys[last])
    ensures |keys| <= MAX_STREAMS && Smallest(known + {k}, Inserted(keys, k, pos))
  {
    hide Less, Inserted;
    PlaceIs(keys, k, pos, last);
    InsertKeeps(known, keys, k, pos);
  }

  lemma ListsInserted(inputs: seq<Input>, before: seq<nat>, after: seq<nat>, keys: seq<Key>, i: nat, pos: nat,
                      last: nat)
    requires Lists(inputs, before, keys) && i < |inputs| && |after| == MAX_STREAMS
    requires pos <= last && last == (if |keys| < MAX_STREAMS then |keys| else |keys| - 1)
    requires (forall j | 0 <= j < pos :: after[j] == before[j]) && after[pos] == i
    requires forall j | pos < j <= last :: after[j] == before[j - 1]
    ensures Lists(inputs, after, Inserted(keys, inputs[i].key, pos)) && |Inserted(keys, inputs[i].key, pos)| == last + 1
  {
    var listed := Inserted(keys, inputs[i].key, pos);
    assert forall j | 0 <= j < pos :: listed[j] == keys[j];
    assert listed[pos] == inputs[i].key;
    assert forall j | pos < j <= last :: listed[j] == keys[j - 1];
  }

  /** Takes one eligible input into account: it is listed already, too large, or inserted. */
  method Consider(inputs: seq<Input>, order: array<nat>, n: nat, i: nat, ghost known: set<Key>, ghost keys: seq<Key>)
    returns (m: nat, ghost listed: seq<Key>)
    requires order.Length == MAX_STREAMS && n == |keys| && Lists(inputs, order[..], keys) && i < |inputs|
    requires Smallest(known, keys)
    modifies order
    ensures m == |listed| && Lists(inputs, order[..], listed) && Smallest(known + {inputs[i].key}, listed)
  {
    hide Less, Smallest, Inserted;
    m, listed := n, keys;
    ghost var before := order[..];
    SizeIsBounded(known, keys);
    var k := inputs[i].key;
    var duplicate := Listed(inputs, order, n, k);
    if duplicate {
      AlreadyKnown(known, keys, k);
      return;
    }
    assert k !in keys;
    if n == MAX_STREAMS && !Less(k, inputs[order[n - 1]].key) {
      TooLarge(known, keys, k);
      return;
    }
    var last := if n < MAX_STREAMS then n else n - 1;
    var pos := InsertInOrder(inputs, order, last, i);
    PlaceAndInsert(known, keys, k, pos, last);
    listed := Inserted(keys, k, pos);
    ListsInserted(inputs, before, order[..], keys, i, pos, last);
    if n < MAX_STREAMS { m := n + 1; }
  }

  /** The selection loop. */
  method Select(inputs: seq<Input>) returns (keys: seq<Key>)
    ensures Smallest(Keys(inputs), keys)
  {
    hide Smallest;
    var order := new nat[MAX_STREAMS];
    var n := 0;
    ghost var listed: seq<Key> := [];
    assert Keys(inputs[..0]) == {};
    NothingListed();
    for i := 0 to |inputs|
      invariant n == |listed| && Lists(inputs, order[..], listed) && Smallest(Keys(inputs[..i]), listed)
    {
      KeysAppend(inputs, i);
      if Eligible(inputs[i]) { n, listed := Consider(inputs, order, n, i, Keys(inputs[..i]), listed); }
    }
    assert inputs[..|inputs|] == inputs;
    keys := [];
    for j := 0 to n
      invariant |keys| == j && forall i | 0 <= i < j :: keys[i] == listed[i]
    {
      keys := keys + [inputs[order[j]].key];
    }
    assert keys == listed;
  }

  lemma NothingListed()
    ensures Smallest({}, [])
  {
  }

  /** Permuting, repeating or interleaving inputs does not change what is selected. */
  lemma SelectionDependsOnTheSet(a: seq<Input>, b: seq<Input>, s: seq<Key>, t: seq<Key>)
    requires (forall x :: x in a && Eligible(x) <==> x in b && Eligible(x))
    requires Smallest(Keys(a), s) && Smallest(Keys(b), t)
    ensures s == t
  {
    assert Keys(a) == Keys(b) by {
      forall k | k in Keys(a) ensures k in Keys(b) { SameKeys(a, b, k); }
      forall k | k in Keys(b) ensures k in Keys(a) { SameKeys(b, a, k); }
    }
    SmallestIsUnique(Keys(a), s, t);
  }

  lemma SameKeys(a: seq<Input>, b: seq<Input>, k: Key)
    requires (forall x :: x in a && Eligible(x) <==> x in b && Eligible(x)) && k in Keys(a)
    ensures k in Keys(b)
  {
    var i :| 0 <= i < |a| && Eligible(a[i]) && a[i].key == k;
    assert a[i] in b;
    var j :| 0 <= j < |b| && b[j] == a[i];
    assert Eligible(b[j]) && b[j].key == k;
  }
}

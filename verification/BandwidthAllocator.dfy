/**
 The allocation itself: the filling loops over the selected streams, proved to compute the
 division of `BandwidthShares`, and what that means for every stream.
 */
module BandwidthAllocator {
  import opened Arithmetic
  import opened BandwidthShares
  import opened BandwidthSelection

  // --------------------------------------------------------------------- streams of a kind

  /** How many of the first `i` streams are of a kind. */
  function Rank(keys: seq<Key>, kind: Kind, i: nat): (r: nat)
    requires i <= |keys|
    ensures r <= i
  {
    if i == 0 then 0 else Rank(keys, kind, i - 1) + (if keys[i - 1].kind == kind then 1 else 0)
  }

  function Count(keys: seq<Key>, kind: Kind): nat { Rank(keys, kind, |keys|) }

  lemma {:induction false} RankGrows(keys: seq<Key>, kind: Kind, i: nat, j: nat)
    requires i <= j <= |keys|
    ensures Rank(keys, kind, i) <= Rank(keys, kind, j)
    ensures i < j && keys[i].kind == kind ==> Rank(keys, kind, i) < Rank(keys, kind, j)
  {
    if i < j {
      RankGrows(keys, kind, i, j - 1);
      if i == j - 1 { assert Rank(keys, kind, j) == Rank(keys, kind, i) + (if keys[i].kind == kind then 1 else 0); }
    }
  }

  /** The streams of a kind hold `total` between them, divided evenly. */
  ghost predicate Even(keys: seq<Key>, bps: seq<nat>, kind: Kind, total: nat) {
    && |bps| == |keys|
    && forall i | 0 <= i < |keys| && keys[i].kind == kind ::
         RankGrows(keys, kind, i, |keys|); bps[i] == Share(total, Count(keys, kind), Rank(keys, kind, i))
  }

  // ------------------------------------------------------------------------------ filling

  /** The indices of a kind, in order. */
  ghost predicate ListsKind(keys: seq<Key>, kind: Kind, list: seq<nat>, i: nat)
    requires i <= |keys|
  {
    && |list| == Rank(keys, kind, i)
    && (forall j | 0 <= j < |list| :: list[j] < i && keys[list[j]].kind == kind && Rank(keys, kind, list[j]) == j)
  }

  /** Collects the streams of a kind below the target, and what they lack together. */
  method Collect(keys: seq<Key>, bps: array<nat>, kind: Kind, target: nat, ghost level: nat)
    returns (eligible: seq<nat>, need: nat)
    requires bps.Length == |keys| && forall i | 0 <= i < |keys| && keys[i].kind == kind :: bps[i] == level
    ensures level >= target ==> eligible == [] && need == 0
    ensures level < target ==> ListsKind(keys, kind, eligible, |keys|) && need == |eligible| * (target - level)
  {
    eligible, need := [], 0;
    for i := 0 to |keys|
      invariant level >= target ==> eligible == [] && need == 0
      invariant level < target ==> ListsKind(keys, kind, eligible, i) && need == |eligible| * (target - level)
    {
      if keys[i].kind == kind && bps[i] < target {
        MulOneMore(|eligible|, target - level);
        eligible := eligible + [i];
        need := need + (target - bps[i]);
      }
    }
  }

  lemma MulOneMore(n: nat, x: nat)
    ensures (n + 1) * x == n * x + x
  {
  }

  /** Every stream of the kind is in the list, at its rank. */
  lemma {:induction false} ListedAtRank(keys: seq<Key>, kind: Kind, list: seq<nat>, i: nat)
    requires ListsKind(keys, kind, list, |keys|) && i < |keys| && keys[i].kind == kind
    ensures Rank(keys, kind, i) < |list| && list[Rank(keys, kind, i)] == i
  {
    RankGrows(keys, kind, i, |keys|);
    var j := list[Rank(keys, kind, i)];
    if i < j { RankGrows(keys, kind, i, j); } else if j < i { RankGrows(keys, kind, j, i); }
  }

  /** Gives every listed stream its increment; `extra` of them get one more. */
  method Raise(keys: seq<Key>, bps: array<nat>, kind: Kind, eligible: seq<nat>, target: nat, share: nat, extra: nat,
               ghost level: nat)
    returns (given: nat)
    requires bps.Length == |keys| && ListsKind(keys, kind, eligible, |keys|) && extra < |eligible|
    requires level + share + 1 <= target
    requires forall i | 0 <= i < |keys| && keys[i].kind == kind :: bps[i] == level
    modifies bps
    ensures given == |eligible| * share + extra
    ensures forall i | 0 <= i < |keys| ::
      bps[i] ==
        if keys[i].kind == kind then level + share + (if Rank(keys, kind, i) < extra then 1 else 0) else old(bps[i])
  {
    given := 0;
    for j := 0 to |eligible|
      invariant given == j * share + Min(j, extra)
      invariant forall i | 0 <= i < |keys| ::
        bps[i] ==
          if keys[i].kind == kind && Rank(keys, kind, i) < j then
            level + share + (if Rank(keys, kind, i) < extra then 1 else 0)
          else old(bps[i])
    {
      var increment := share + (if j < extra then 1 else 0);
      var deficit := target - bps[eligible[j]];
      if increment > deficit { increment := deficit; }
      MulOneMore(j, share);
      bps[eligible[j]] := bps[eligible[j]] + increment;
      given := given + increment;
      forall i | 0 <= i < |keys| && keys[i].kind == kind && Rank(keys, kind, i) == j
        ensures i == eligible[j]
      {
        ListedAtRank(keys, kind, eligible, i);
      }
    }
    forall i | 0 <= i < |keys| && keys[i].kind == kind
      ensures Rank(keys, kind, i) < |eligible|
    {
      ListedAtRank(keys, kind, eligible, i);
    }
  }

  method SetAll(keys: seq<Key>, bps: array<nat>, kind: Kind, eligible: seq<nat>, target: nat)
    requires bps.Length == |keys| && ListsKind(keys, kind, eligible, |keys|)
    modifies bps
    ensures forall i | 0 <= i < |keys| :: bps[i] == if keys[i].kind == kind then target else old(bps[i])
  {
    for j := 0 to |eligible|
      invariant forall i | 0 <= i < |keys| ::
        bps[i] == if keys[i].kind == kind && Rank(keys, kind, i) < j then target else old(bps[i])
    {
      bps[eligible[j]] := target;
      forall i | 0 <= i < |keys| && keys[i].kind == kind && Rank(keys, kind, i) == j
        ensures i == eligible[j]
      {
        ListedAtRank(keys, kind, eligible, i);
      }
    }
    forall i | 0 <= i < |keys| && keys[i].kind == kind
      ensures Rank(keys, kind, i) < |eligible|
    {
      ListedAtRank(keys, kind, eligible, i);
    }
  }

  /** An even division of a whole level gives everyone that level. */
  lemma EvenLevel(keys: seq<Key>, bps: seq<nat>, kind: Kind, level: nat)
    requires |bps| == |keys|
    ensures Even(keys, bps, kind, Count(keys, kind) * level) <==>
      forall i | 0 <= i < |keys| && keys[i].kind == kind :: bps[i] == level
  {
    forall i | 0 <= i < |keys| && keys[i].kind == kind
      ensures Count(keys, kind) > 0 && Share(Count(keys, kind) * level, Count(keys, kind), Rank(keys, kind, i)) == level
    {
      RankGrows(keys, kind, i, |keys|);
      ShareOfLevel(Count(keys, kind), level, Rank(keys, kind, i));
    }
  }

  lemma EvenRaised(keys: seq<Key>, bps: seq<nat>, kind: Kind, level: nat, r: nat)
    requires |bps| == |keys| && Count(keys, kind) > 0
    requires forall i | 0 <= i < |keys| && keys[i].kind == kind ::
      bps[i] == level + r / Count(keys, kind) + (if Rank(keys, kind, i) < r % Count(keys, kind) then 1 else 0)
    ensures Even(keys, bps, kind, Count(keys, kind) * level + r)
  {
    hide Share;
    forall i | 0 <= i < |keys| && keys[i].kind == kind
      ensures bps[i] == Share(Count(keys, kind) * level + r, Count(keys, kind), Rank(keys, kind, i))
    {
      ShareAboveLevel(Count(keys, kind), level, r, Rank(keys, kind, i));
    }
  }

  lemma DivBack(r: nat, n: nat)
    requires n > 0
    ensures n * (r / n) + r % n == r
  {
  }

  lemma MulSplit(n: nat, level: nat, target: nat)
    requires level <= target
    ensures n * (target - level) == n * target - n * level
  {
  }

  lemma LevelBound(n: nat, level: nat, target: nat)
    requires n > 0 && n * level <= n * target
    ensures level <= target
  {
    if target < level { MulStep(n, target, level); }
  }

  /** Raises the streams of a kind to a target as far as the rest of the pool goes.  They start
      level, unless the pool is used up already; they end with an even division of what they
      hold, and all of the pool is used before any of them misses the target. */
  method FillClass(keys: seq<Key>, bps: array<nat>, kind: Kind, target: nat, remaining: nat, ghost total: nat,
                   ghost level: nat) returns (left: nat)
    requires bps.Length == |keys| && Even(keys, bps[..], kind, total) && total <= Count(keys, kind) * target
    requires remaining > 0 ==> total == Count(keys, kind) * level
    modifies bps
    ensures var after := Min(Count(keys, kind) * target, total + remaining);
      left == remaining - (after - total) && Even(keys, bps[..], kind, after)
    ensures forall i | 0 <= i < |keys| && keys[i].kind != kind :: bps[i] == old(bps[i])
  {
    hide Even, Share;
    left := remaining;
    if remaining == 0 { return; }
    ghost var n := Count(keys, kind);
    EvenLevel(keys, bps[..], kind, level);
    var eligible, need := Collect(keys, bps, kind, target, level);
    if n > 0 { LevelBound(n, level, target); }
    if eligible == [] {
      assert n * target == total;
      return;
    }
    MulSplit(n, level, target);
    if remaining >= need {
      SetAll(keys, bps, kind, eligible, target);
      EvenLevel(keys, bps[..], kind, target);
      left := remaining - need;
      return;
    }
    IncrementFits(n, target - level, remaining);
    DivBack(remaining, n);
    var given := Raise(keys, bps, kind, eligible, target, remaining / |eligible|, remaining % |eligible|, level);
    EvenRaised(keys, bps[..], kind, level, remaining);
    left := remaining - given;
  }

  // --------------------------------------------------------------------------- allocation

  datatype Allocation = Allocation(pool: nat, reserve: nat, granted: nat, spare: nat, keys: seq<Key>, bps: seq<nat>)

  predicate HasScreen(keys: seq<Key>) { exists i :: 0 <= i < |keys| && keys[i].kind == Screen }

  function LimitsFor(p: Policy, keys: seq<Key>): Limits { LimitsOf(p, Count(keys, Screen), Count(keys, Camera)) }

  ghost function DivisionFor(p: Policy, keys: seq<Key>, pool: nat): Split
    requires ValidPolicy(p)
  {
    LimitsAreTiered(p, Count(keys, Screen), Count(keys, Camera));
    Divide(LimitsFor(p, keys), HasScreen(keys), pool)
  }

  /** What an allocation is: which streams, and how much each of them gets. */
  ghost predicate IsAllocation(p: Policy, inputs: seq<Input>, estimate: nat, a: Allocation)
    requires ValidPolicy(p)
  {
    && a.pool == Pool(p.percent, estimate) && a.reserve == estimate - a.pool && a.spare == a.pool - a.granted
    && Smallest(if a.pool == 0 then {} else Keys(inputs), a.keys)
    && var d := DivisionFor(p, a.keys, a.pool);
       && Even(a.keys, a.bps, Screen, d.screens) && Even(a.keys, a.bps, Camera, d.cameras)
       && a.granted == d.screens + d.cameras
  }

  function Sum(bps: seq<nat>, i: nat): nat
    requires i <= |bps|
  {
    if i == 0 then 0 else Sum(bps, i - 1) + bps[i - 1]
  }

  function SumOf(keys: seq<Key>, bps: seq<nat>, kind: Kind, i: nat): nat
    requires i <= |keys| == |bps|
  {
    if i == 0 then 0 else SumOf(keys, bps, kind, i - 1) + (if keys[i - 1].kind == kind then bps[i - 1] else 0)
  }

  lemma {:induction false} SumSplits(keys: seq<Key>, bps: seq<nat>, i: nat)
    requires i <= |keys| == |bps|
    ensures Sum(bps, i) == SumOf(keys, bps, Screen, i) + SumOf(keys, bps, Camera, i)
  {
    if i > 0 { SumSplits(keys, bps, i - 1); }
  }

  /** Even shares add up to what is shared. */
  lemma {:induction false} SumOfEven(keys: seq<Key>, bps: seq<nat>, kind: Kind, total: nat, i: nat)
    requires Even(keys, bps, kind, total) && i <= |keys| && Count(keys, kind) > 0
    ensures SumOf(keys, bps, kind, i) ==
      Rank(keys, kind, i) * (total / Count(keys, kind)) + Min(Rank(keys, kind, i), total % Count(keys, kind))
  {
    if i > 0 {
      SumOfEven(keys, bps, kind, total, i - 1);
      MulOneMore(Rank(keys, kind, i - 1), total / Count(keys, kind));
    }
  }

  lemma SumIsTotal(keys: seq<Key>, bps: seq<nat>, kind: Kind, total: nat)
    requires Even(keys, bps, kind, total) && (Count(keys, kind) == 0 ==> total == 0)
    ensures SumOf(keys, bps, kind, |keys|) == total
  {
    var n := Count(keys, kind);
    if n > 0 {
      SumOfEven(keys, bps, kind, total, |keys|);
      DivBack(total, n);
    } else {
      SumOfNone(keys, bps, kind, |keys|);
    }
  }

  lemma {:induction false} SumOfNone(keys: seq<Key>, bps: seq<nat>, kind: Kind, i: nat)
    requires i <= |keys| == |bps| && Rank(keys, kind, i) == 0
    ensures SumOf(keys, bps, kind, i) == 0
  {
    if i > 0 { SumOfNone(keys, bps, kind, i - 1); }
  }

  lemma {:induction false} CountsScreens(keys: seq<Key>, i: nat)
    requires i <= |keys|
    ensures Rank(keys, Screen, i) > 0 <==> exists j :: 0 <= j < i && keys[j].kind == Screen
  {
    if i > 0 { CountsScreens(keys, i - 1); }
  }

  lemma EmptyEven(keys: seq<Key>, bps: seq<nat>, kind: Kind)
    requires |bps| == |keys| && forall i | 0 <= i < |bps| :: bps[i] == 0
    ensures Even(keys, bps, kind, 0)
  {
    EvenLevel(keys, bps, kind, 0);
    assert Count(keys, kind) * 0 == 0;
  }

  lemma EvenElsewhere(keys: seq<Key>, before: seq<nat>, after: seq<nat>, kind: Kind, total: nat)
    requires Even(keys, before, kind, total) && |after| == |before|
    requires forall i | 0 <= i < |keys| && keys[i].kind == kind :: after[i] == before[i]
    ensures Even(keys, after, kind, total)
  {
  }

  method RaiseScreenTier(keys: seq<Key>, bps: array<nat>, target: nat, ghost s: Split, remaining: nat,
                         ghost level: nat) returns (left: nat, ghost t: Split)
    requires bps.Length == |keys| && Even(keys, bps[..], Screen, s.screens) && Even(keys, bps[..], Camera, s.cameras)
    requires s.left == remaining
    requires s.screens <= Count(keys, Screen) * target && (remaining > 0 ==> s.screens == Count(keys, Screen) * level)
    modifies bps
    ensures t == RaiseScreens(s, Count(keys, Screen) * target) && left == t.left
    ensures Even(keys, bps[..], Screen, t.screens) && Even(keys, bps[..], Camera, t.cameras)
    ensures t.screens <= Count(keys, Screen) * target && t.cameras == s.cameras
    ensures (left > 0 ==> t.screens == Count(keys, Screen) * target)
  {
    hide Even;
    ghost var before := bps[..];
    left := FillClass(keys, bps, Screen, target, remaining, s.screens, level);
    t := RaiseScreens(s, Count(keys, Screen) * target);
    EvenElsewhere(keys, before, bps[..], Camera, s.cameras);
  }

  method RaiseCameraTier(keys: seq<Key>, bps: array<nat>, target: nat, ghost s: Split, remaining: nat,
                         ghost level: nat) returns (left: nat, ghost t: Split)
    requires bps.Length == |keys| && Even(keys, bps[..], Screen, s.screens) && Even(keys, bps[..], Camera, s.cameras)
    requires s.left == remaining
    requires s.cameras <= Count(keys, Camera) * target && (remaining > 0 ==> s.cameras == Count(keys, Camera) * level)
    modifies bps
    ensures t == RaiseCameras(s, Count(keys, Camera) * target) && left == t.left
    ensures Even(keys, bps[..], Screen, t.screens) && Even(keys, bps[..], Camera, t.cameras)
    ensures t.cameras <= Count(keys, Camera) * target && t.screens == s.screens
    ensures (left > 0 ==> t.cameras == Count(keys, Camera) * target)
  {
    hide Even;
    ghost var before := bps[..];
    left := FillClass(keys, bps, Camera, target, remaining, s.cameras, level);
    t := RaiseCameras(s, Count(keys, Camera) * target);
    EvenElsewhere(keys, before, bps[..], Screen, s.screens);
  }

  method AnyScreen(keys: seq<Key>) returns (found: bool)
    ensures found == HasScreen(keys)
  {
    for i := 0 to |keys|
      invariant forall j | 0 <= j < i :: keys[j].kind != Screen
    {
      if keys[i].kind == Screen { return true; }
    }
    found := false;
  }

  /** The tiers both cases share: screens to the preferred rate, then cameras to admission. */
  ghost function FirstTiers(l: Limits, pool: nat): Split
    requires Tiered(l)
  {
    RaiseCameras(RaiseScreens(RaiseScreens(Split(0, 0, pool), l.screenAdmit), l.screenPreferred), l.cameraAdmit)
  }

  method FillFirstTiers(p: Policy, keys: seq<Key>, bps: array<nat>, pool: nat) returns (left: nat, ghost s: Split)
    requires ValidPolicy(p) && bps.Length == |keys| && forall i | 0 <= i < |keys| :: bps[i] == 0
    modifies bps
    ensures Tiered(LimitsFor(p, keys)) && s == FirstTiers(LimitsFor(p, keys), pool) && left == s.left
    ensures Even(keys, bps[..], Screen, s.screens) && Even(keys, bps[..], Camera, s.cameras)
    ensures var n, m := Count(keys, Screen), Count(keys, Camera);
      && s.screens <= n * p.preferred && s.cameras <= m * p.admission
      && (left > 0 ==> s.screens == n * p.preferred && s.cameras == m * p.admission)
  {
    hide Even, Count;
    ghost var n, m := Count(keys, Screen), Count(keys, Camera);
    LimitsAreTiered(p, n, m);
    s := Split(0, 0, pool);
    left := pool;
    EmptyEven(keys, bps[..], Screen);
    EmptyEven(keys, bps[..], Camera);
    assert n * 0 == 0 && m * 0 == 0;
    MulMonotone(n, p.admission, p.preferred);
    left, s := RaiseScreenTier(keys, bps, if p.admission < p.screenCap then p.admission else p.screenCap, s, left, 0);
    left, s := RaiseScreenTier(keys, bps, p.preferred, s, left, p.admission);
    left, s := RaiseCameraTier(keys, bps, if p.admission < p.cameraCap then p.admission else p.cameraCap, s, left, 0);
  }

  /** Runs the tiers over the selected streams. */
  method FillTiers(p: Policy, keys: seq<Key>, pool: nat) returns (bps: array<nat>)
    requires ValidPolicy(p)
    ensures fresh(bps) && bps.Length == |keys|
    ensures var d := DivisionFor(p, keys, pool);
      Even(keys, bps[..], Screen, d.screens) && Even(keys, bps[..], Camera, d.cameras)
  {
    hide Even, Count, RaiseScreens, RaiseCameras;
    bps := new nat[|keys|](_ => 0);
    ghost var n, m := Count(keys, Screen), Count(keys, Camera);
    var left, s := FillFirstTiers(p, keys, bps, pool);
    var screen := AnyScreen(keys);
    if screen {
      MulMonotone(n, p.preferred, p.screenMid);
      MulMonotone(n, p.screenMid, p.screenCap);
      left, s := RaiseScreenTier(keys, bps, p.screenMid, s, left, p.preferred);
      left, s := RaiseScreenTier(keys, bps, p.screenCap, s, left, p.screenMid);
    } else {
      MulMonotone(m, p.admission, p.cameraMid);
      MulMonotone(m, p.cameraMid, p.cameraCap);
      left, s := RaiseCameraTier(keys, bps, p.cameraMid, s, left, p.admission);
      left, s := RaiseCameraTier(keys, bps, p.cameraCap, s, left, p.cameraMid);
    }
  }

  /** Adds up what the streams got. */
  method AddUp(keys: seq<Key>, bps: array<nat>, ghost screens: nat, ghost cameras: nat) returns (sum: nat)
    requires bps.Length == |keys| && Even(keys, bps[..], Screen, screens) && Even(keys, bps[..], Camera, cameras)
    requires (Count(keys, Screen) == 0 ==> screens == 0) && (Count(keys, Camera) == 0 ==> cameras == 0)
    ensures sum == screens + cameras
  {
    hide Even, SumOf, Count;
    sum := 0;
    for i := 0 to |keys|
      invariant sum == Sum(bps[..], i)
    {
      sum := sum + bps[i];
    }
    SumSplits(keys, bps[..], |keys|);
    SumIsTotal(keys, bps[..], Screen, screens);
    SumIsTotal(keys, bps[..], Camera, cameras);
  }

  /** The division stays within the caps and is worth nothing to a kind without streams. */
  lemma DivisionFits(p: Policy, keys: seq<Key>, pool: nat)
    requires ValidPolicy(p)
    ensures var d := DivisionFor(p, keys, pool); var n, m := Count(keys, Screen), Count(keys, Camera);
      && d.screens <= n * p.screenCap && d.cameras <= m * CameraCap(p, keys)
      && d.screens + d.cameras == Min(pool, n * p.screenCap + m * CameraCap(p, keys))
      && (n == 0 ==> d.screens == 0) && (m == 0 ==> d.cameras == 0)
      && (d.cameras > 0 ==> d.screens >= n * p.preferred)
  {
    hide Count;
    var n, m := Count(keys, Screen), Count(keys, Camera);
    LimitsAreTiered(p, n, m);
    ScreensAreCounted(keys);
    assert n == 0 ==> n * p.screenCap == 0;
    DivideIsWorkConserving(LimitsFor(p, keys), HasScreen(keys), pool);
  }

  lemma ScreensAreCounted(keys: seq<Key>)
    ensures Count(keys, Screen) > 0 <==> HasScreen(keys)
  {
    CountsScreens(keys, |keys|);
  }

  /** With screens around, cameras get no more than admission. */
  function CameraCap(p: Policy, keys: seq<Key>): nat
  {
    if HasScreen(keys) then Min(p.admission, p.cameraCap) else p.cameraCap
  }

  method Allocate(p: Policy, inputs: seq<Input>, estimate: nat) returns (a: Allocation)
    requires ValidPolicy(p)
    ensures IsAllocation(p, inputs, estimate, a)
  {
    hide Even, Count, Smallest, DivisionFor;
    var pool := estimate / 100 * p.percent + estimate % 100 * p.percent / 100;
    PoolGrows(p.percent, estimate, estimate);
    var keys := [];
    if inputs == [] || pool == 0 {
      NothingListed();
      assert Keys([]) == {};
    } else {
      keys := Select(inputs);
    }
    ghost var d := DivisionFor(p, keys, pool);
    DivisionFits(p, keys, pool);
    var bps := FillTiers(p, keys, pool);
    var sum := AddUp(keys, bps, d.screens, d.cameras);
    a := Allocation(pool, estimate - pool, sum, pool - sum, keys, bps[..]);
  }

  // -------------------------------------------------------------------------- theorems

  /** The most a stream may get next to the others. */
  function CapOf(p: Policy, keys: seq<Key>, i: nat): nat
    requires i < |keys|
  {
    if keys[i].kind == Screen then p.screenCap else CameraCap(p, keys)
  }

  function TotalCap(p: Policy, keys: seq<Key>, i: nat): nat
    requires i <= |keys|
  {
    if i == 0 then 0 else TotalCap(p, keys, i - 1) + CapOf(p, keys, i - 1)
  }

  lemma {:induction false} TotalCapIs(p: Policy, keys: seq<Key>, i: nat)
    requires i <= |keys|
    ensures TotalCap(p, keys, i) == Rank(keys, Screen, i) * p.screenCap + Rank(keys, Camera, i) * CameraCap(p, keys)
  {
    if i > 0 {
      TotalCapIs(p, keys, i - 1);
      MulOneMore(Rank(keys, Screen, i - 1), p.screenCap);
      MulOneMore(Rank(keys, Camera, i - 1), CameraCap(p, keys));
    }
  }

  /** The streams together get the whole pool, or everything they may get. */
  lemma AllocationIsWorkConserving(p: Policy, inputs: seq<Input>, estimate: nat, a: Allocation)
    requires ValidPolicy(p) && IsAllocation(p, inputs, estimate, a)
    ensures a.granted == Min(a.pool, TotalCap(p, a.keys, |a.keys|)) && a.granted == Sum(a.bps, |a.keys|)
    ensures a.pool + a.reserve == estimate && a.granted + a.spare == a.pool
  {
    hide Even, Rank, DivisionFor, CameraCap;
    DivisionFits(p, a.keys, a.pool);
    TotalCapIs(p, a.keys, |a.keys|);
    EvenSize(a.keys, a.bps, Screen, DivisionFor(p, a.keys, a.pool).screens);
    SumSplits(a.keys, a.bps, |a.keys|);
    SumIsTotal(a.keys, a.bps, Screen, DivisionFor(p, a.keys, a.pool).screens);
    SumIsTotal(a.keys, a.bps, Camera, DivisionFor(p, a.keys, a.pool).cameras);
    PoolGrows(p.percent, estimate, estimate);
  }

  lemma EvenSize(keys: seq<Key>, bps: seq<nat>, kind: Kind, total: nat)
    requires Even(keys, bps, kind, total)
    ensures |bps| == |keys|
  {
  }

  /** Streams of a kind differ by at most one bit per second. */
  lemma AllocationIsFair(p: Policy, inputs: seq<Input>, estimate: nat, a: Allocation, i: nat, j: nat)
    requires ValidPolicy(p) && IsAllocation(p, inputs, estimate, a) && |a.bps| == |a.keys|
    requires i < |a.keys| && j < |a.keys| && a.keys[i].kind == a.keys[j].kind
    ensures a.bps[i] <= a.bps[j] + 1
  {
    var kind := a.keys[i].kind;
    var d := DivisionFor(p, a.keys, a.pool);
    RankGrows(a.keys, kind, i, |a.keys|);
    SharesDifferByOne(if kind == Screen then d.screens else d.cameras, Count(a.keys, kind), Rank(a.keys, kind, i),
                      Rank(a.keys, kind, j));
  }

  lemma ShareBounds(total: nat, n: nat, rank: nat, low: nat, high: nat)
    requires n > 0 && n * low <= total <= n * high
    ensures low <= Share(total, n, rank) <= high
  {
    ShareOfLevel(n, low, rank);
    ShareOfLevel(n, high, rank);
    SharesGrow(n, n * low, total, rank);
    SharesGrow(n, total, n * high, rank);
  }

  /** A camera gets something only after every screen has its preferred rate. */
  lemma ScreensComeFirst(p: Policy, inputs: seq<Input>, estimate: nat, a: Allocation, camera: nat, screen: nat)
    requires ValidPolicy(p) && IsAllocation(p, inputs, estimate, a) && |a.bps| == |a.keys|
    requires camera < |a.keys| && a.keys[camera].kind == Camera && a.bps[camera] > 0
    requires screen < |a.keys| && a.keys[screen].kind == Screen
    ensures a.bps[screen] >= p.preferred
  {
    hide Share;
    var d := DivisionFor(p, a.keys, a.pool);
    DivisionFits(p, a.keys, a.pool);
    RankGrows(a.keys, Camera, camera, |a.keys|);
    RankGrows(a.keys, Screen, screen, |a.keys|);
    if d.cameras == 0 { NoShareOfNothing(Count(a.keys, Camera), Rank(a.keys, Camera, camera)); }
    ShareBounds(d.screens, Count(a.keys, Screen), Rank(a.keys, Screen, screen), p.preferred, p.screenCap);
  }

  lemma NoShareOfNothing(n: nat, rank: nat)
    requires n > 0
    ensures Share(0, n, rank) == 0
  {
  }

  lemma WithinCap(p: Policy, inputs: seq<Input>, estimate: nat, a: Allocation, i: nat)
    requires ValidPolicy(p) && IsAllocation(p, inputs, estimate, a) && |a.bps| == |a.keys| && i < |a.keys|
    ensures a.bps[i] <= CapOf(p, a.keys, i)
  {
    hide Share;
    var d, kind := DivisionFor(p, a.keys, a.pool), a.keys[i].kind;
    DivisionFits(p, a.keys, a.pool);
    RankGrows(a.keys, kind, i, |a.keys|);
    var total := if kind == Screen then d.screens else d.cameras;
    assert Count(a.keys, kind) * 0 == 0;
    ShareBounds(total, Count(a.keys, kind), Rank(a.keys, kind, i), 0, CapOf(p, a.keys, i));
  }

  /** Sums of parts that are within their caps reach the sum of the caps only at the caps. */
  lemma {:induction false} AllAtCap(p: Policy, keys: seq<Key>, bps: seq<nat>, i: nat)
    requires i <= |keys| == |bps| && forall j | 0 <= j < |keys| :: bps[j] <= CapOf(p, keys, j)
    ensures Sum(bps, i) <= TotalCap(p, keys, i)
    ensures Sum(bps, i) == TotalCap(p, keys, i) <==> forall j | 0 <= j < i :: bps[j] == CapOf(p, keys, j)
  {
    if i > 0 { AllAtCap(p, keys, bps, i - 1); }
  }

  /** The unmet-demand query answers whether the pool is below what the streams may get. */
  method HasUnmetDemand(p: Policy, a: Allocation, ghost inputs: seq<Input>, ghost estimate: nat) returns (unmet: bool)
    requires ValidPolicy(p) && IsAllocation(p, inputs, estimate, a)
    ensures unmet <==> a.pool < TotalCap(p, a.keys, |a.keys|)
  {
    hide IsAllocation, Even, TotalCap, Sum;
    assert |a.bps| == |a.keys| by { AllocationSize(p, inputs, estimate, a); }
    AllocationIsWorkConserving(p, inputs, estimate, a);
    forall i | 0 <= i < |a.keys| ensures a.bps[i] <= CapOf(p, a.keys, i) { WithinCap(p, inputs, estimate, a, i); }
    AllAtCap(p, a.keys, a.bps, |a.keys|);
    var screen := AnyScreen(a.keys);
    for i := 0 to |a.keys|
      invariant forall j | 0 <= j < i :: a.bps[j] == CapOf(p, a.keys, j)
    {
      if a.keys[i].kind == Screen {
        if a.bps[i] < p.screenCap { return true; }
      } else {
        var cap := if screen then (if p.admission < p.cameraCap then p.admission else p.cameraCap) else p.cameraCap;
        if a.bps[i] < cap { return true; }
      }
    }
    unmet := false;
  }

  lemma AllocationSize(p: Policy, inputs: seq<Input>, estimate: nat, a: Allocation)
    requires ValidPolicy(p) && IsAllocation(p, inputs, estimate, a)
    ensures |a.bps| == |a.keys|
  {
  }

  /** No stream gets less when the estimate rises. */
  lemma AllocationIsMonotone(p: Policy, inputs: seq<Input>, e1: nat, e2: nat, a1: Allocation, a2: Allocation, i: nat)
    requires ValidPolicy(p) && IsAllocation(p, inputs, e1, a1) && IsAllocation(p, inputs, e2, a2) && e1 <= e2
    requires i < |a1.keys|
    ensures a1.keys == a2.keys && |a1.bps| == |a2.bps| == |a1.keys| && a1.bps[i] <= a2.bps[i]
  {
    hide Share, Smallest, Divide;
    PoolGrows(p.percent, e1, e2);
    if a1.pool == 0 { NothingSelected(a1.keys); }
    SmallestIsUnique(Keys(inputs), a1.keys, a2.keys);
    var kind := a1.keys[i].kind;
    LimitsAreTiered(p, Count(a1.keys, Screen), Count(a1.keys, Camera));
    DivideIsMonotone(LimitsFor(p, a1.keys), HasScreen(a1.keys), a1.pool, a2.pool);
    RankGrows(a1.keys, kind, i, |a1.keys|);
    var d1, d2 := DivisionFor(p, a1.keys, a1.pool), DivisionFor(p, a1.keys, a2.pool);
    SharesGrow(Count(a1.keys, kind), if kind == Screen then d1.screens else d1.cameras,
               if kind == Screen then d2.screens else d2.cameras, Rank(a1.keys, kind, i));
  }

  lemma NothingSelected(keys: seq<Key>)
    requires Smallest({}, keys)
    ensures keys == []
  {
    if keys != [] { ListedIsKey({}, keys, 0); }
  }

  /** Permuting or repeating inputs leaves the whole allocation unchanged. */
  lemma AllocationDependsOnTheSet(p: Policy, x: seq<Input>, y: seq<Input>, estimate: nat, a: Allocation, b: Allocation)
    requires ValidPolicy(p) && IsAllocation(p, x, estimate, a) && IsAllocation(p, y, estimate, b)
    requires forall i :: i in x && Eligible(i) <==> i in y && Eligible(i)
    ensures a == b
  {
    hide Smallest, DivisionFor, Share, Eligible, Pool;
    SameSelection(x, y, a, b);
    forall i | 0 <= i < |a.keys| ensures a.bps[i] == b.bps[i] {
      assert a.keys[i].kind == Screen || a.keys[i].kind == Camera;
    }
  }

  lemma SameSelection(x: seq<Input>, y: seq<Input>, a: Allocation, b: Allocation)
    requires forall i :: i in x && Eligible(i) <==> i in y && Eligible(i)
    requires a.pool == b.pool && Smallest(if a.pool == 0 then {} else Keys(x), a.keys)
    requires Smallest(if a.pool == 0 then {} else Keys(y), b.keys)
    ensures a.keys == b.keys
  {
    hide Smallest, Eligible;
    if a.pool == 0 { SmallestIsUnique({}, a.keys, b.keys); } else { SelectionDependsOnTheSet(x, y, a.keys, b.keys); }
  }
}

/**
 How the bandwidth allocator (src/congestion/bandwidth_allocator.c) divides the video pool:
 tier by tier between the two kinds of streams, and evenly within a kind.
 */
module BandwidthShares {
  import opened Arithmetic

  datatype Kind = Camera | Screen

  datatype Policy = Policy(percent: nat, admission: nat, preferred: nat, screenMid: nat, screenCap: nat,
                           cameraMid: nat, cameraCap: nat)

  /** What the configuration check demands (src/config/config.c). */
  predicate ValidPolicy(p: Policy) {
    && 0 < p.percent <= 100 && 0 < p.admission <= p.preferred <= p.screenMid <= p.screenCap
    && p.admission <= p.cameraMid <= p.cameraCap
  }

  function OrElse(configured: nat, fallback: nat): nat { if configured != 0 then configured else fallback }

  /** The policy in force: a zero stands for the built-in value. */
  function InForce(c: Policy): Policy {
    Policy(OrElse(c.percent, 85), OrElse(c.admission, 240_000), OrElse(c.preferred, 2_000_000),
           OrElse(c.screenMid, 3_000_000),
           OrElse(c.screenCap, 3_500_000), OrElse(c.cameraMid, 720_000), OrElse(c.cameraCap, 1_000_000))
  }

  lemma InForceIsValid(c: Policy)
    requires ValidPolicy(c) || c == Policy(0, 0, 0, 0, 0, 0, 0)
    ensures ValidPolicy(InForce(c)) && (ValidPolicy(c) ==> InForce(c) == c)
  {
  }

  // --------------------------------------------------------------------------- the pool

  function Pool(percent: nat, estimate: nat): nat { estimate / 100 * percent + estimate % 100 * percent / 100 }

  lemma PoolGrows(percent: nat, e1: nat, e2: nat)
    requires percent <= 100 && e1 <= e2
    ensures Pool(percent, e1) <= Pool(percent, e2) && Pool(percent, e2) <= e2
  {
    PoolIsFloor(percent, e1);
    PoolIsFloor(percent, e2);
    MulMonotone(percent, e1, e2);
    MulMonotone(e2, percent, 100);
  }

  /** The two-part product is the exact percentage, rounded down. */
  lemma PoolIsFloor(percent: nat, e: nat)
    ensures Pool(percent, e) == e * percent / 100
  {
    var q, r := e / 100, e % 100;
    assert e * percent == 100 * (q * percent) + r * percent;
    assert (100 * (q * percent) + r * percent) / 100 == q * percent + r * percent / 100;
  }

  // ------------------------------------------------------------------- within one kind

  /** The share of the stream at place `rank` among `n` when `total` is divided evenly. */
  function Share(total: nat, n: nat, rank: nat): nat
    requires n > 0
  {
    total / n + (if rank < total % n then 1 else 0)
  }

  lemma SharesDifferByOne(total: nat, n: nat, i: nat, j: nat)
    requires n > 0
    ensures Share(total, n, i) <= Share(total, n, j) + 1
  {
  }

  lemma ShareOfLevel(n: nat, level: nat, rank: nat)
    requires n > 0
    ensures Share(n * level, n, rank) == level
  {
    DivIs(n * level, n, level, 0);
  }

  /** Adding `r` to a level shared by all gives the shares of the sum. */
  lemma ShareAboveLevel(n: nat, level: nat, r: nat, rank: nat)
    requires n > 0
    ensures Share(n * level + r, n, rank) == level + r / n + (if rank < r % n then 1 else 0)
  {
    assert (n * level + r) / n == level + r / n by { DivPlus(n, level, r); }
    assert (n * level + r) % n == r % n by { DivPlus(n, level, r); }
  }

  lemma DivPlus(n: nat, level: nat, r: nat)
    requires n > 0
    ensures (n * level + r) / n == level + r / n && (n * level + r) % n == r % n
  {
    var q, m := r / n, r % n;
    assert n * level + r == n * (level + q) + m;
    DivIs(n * level + r, n, level + q, m);
  }

  /** A level that is not reached stays out of reach of every share: the source's clamp is idle. */
  lemma IncrementFits(n: nat, deficit: nat, r: nat)
    requires n > 0 && r < n * deficit
    ensures r / n + 1 <= deficit
  {
    if r / n >= deficit { MulMonotone(n, deficit, r / n); }
  }

  lemma SharesGrow(n: nat, a: nat, b: nat, rank: nat)
    requires n > 0 && a <= b
    ensures Share(a, n, rank) <= Share(b, n, rank)
  {
    if a / n == b / n {
      assert a % n <= b % n;
    } else {
      DivMonotone(a, b, n);
    }
  }

  // ----------------------------------------------------------------- between the kinds

  /** What the kinds hold so far and what is left of the pool. */
  datatype Split = Split(screens: nat, cameras: nat, left: nat)

  function RaiseScreens(s: Split, limit: nat): Split
    requires s.screens <= limit
  {
    var a := Min(limit, s.screens + s.left);
    Split(a, s.cameras, s.left - (a - s.screens))
  }

  function RaiseCameras(s: Split, limit: nat): Split
    requires s.cameras <= limit
  {
    var a := Min(limit, s.cameras + s.left);
    Split(s.screens, a, s.left - (a - s.cameras))
  }

  /** The limits of the tiers, for all streams of a kind together. */
  datatype Limits = Limits(screenAdmit: nat, screenPreferred: nat, screenMid: nat, screenCap: nat, cameraAdmit: nat,
                           cameraMid: nat, cameraCap: nat)

  predicate Tiered(l: Limits) {
    l.screenAdmit <= l.screenPreferred <= l.screenMid <= l.screenCap && l.cameraAdmit <= l.cameraMid <= l.cameraCap
  }

  function LimitsOf(p: Policy, screens: nat, cameras: nat): Limits {
    Limits(screens * Min(p.admission, p.screenCap), screens * p.preferred, screens * p.screenMid, screens * p.screenCap,
           cameras * Min(p.admission, p.cameraCap), cameras * p.cameraMid, cameras * p.cameraCap)
  }

  lemma LimitsAreTiered(p: Policy, screens: nat, cameras: nat)
    requires ValidPolicy(p)
    ensures Tiered(LimitsOf(p, screens, cameras))
  {
    MulMonotone(screens, p.admission, p.preferred);
    MulMonotone(screens, p.preferred, p.screenMid);
    MulMonotone(screens, p.screenMid, p.screenCap);
    MulMonotone(cameras, p.admission, p.cameraMid);
    MulMonotone(cameras, p.cameraMid, p.cameraCap);
  }

  /** The source's order of tiers: screens to admission and to the preferred rate, cameras to
      admission, then the rest to the screens or, without screens, to the cameras. */
  function Divide(l: Limits, hasScreen: bool, pool: nat): Split
    requires Tiered(l)
  {
    var s1 := RaiseScreens(Split(0, 0, pool), l.screenAdmit);
    var s2 := RaiseScreens(s1, l.screenPreferred);
    var s3 := RaiseCameras(s2, l.cameraAdmit);
    if hasScreen then RaiseScreens(RaiseScreens(s3, l.screenMid), l.screenCap)
    else RaiseCameras(RaiseCameras(s3, l.cameraMid), l.cameraCap)
  }

  /** What the streams may get at most. */
  function Caps(l: Limits, hasScreen: bool): nat {
    l.screenCap + (if hasScreen then l.cameraAdmit else l.cameraCap)
  }

  /** Nothing is left over unless every stream is at its cap, and screens come first. */
  lemma DivideIsWorkConserving(l: Limits, hasScreen: bool, pool: nat)
    requires Tiered(l) && (hasScreen || l.screenCap == 0)
    ensures var d := Divide(l, hasScreen, pool);
      && d.screens + d.cameras + d.left == pool && d.screens + d.cameras == Min(pool, Caps(l, hasScreen))
      && d.screens <= l.screenCap && d.cameras <= (if hasScreen then l.cameraAdmit else l.cameraCap)
      && (d.cameras > 0 ==> d.screens >= l.screenPreferred)
      && (d.screens > l.screenPreferred ==> d.cameras == l.cameraAdmit)
  {
  }

  lemma DivideIsMonotone(l: Limits, hasScreen: bool, p1: nat, p2: nat)
    requires Tiered(l) && p1 <= p2
    ensures Divide(l, hasScreen, p1).screens <= Divide(l, hasScreen, p2).screens
    ensures Divide(l, hasScreen, p1).cameras <= Divide(l, hasScreen, p2).cameras
  {
  }
}

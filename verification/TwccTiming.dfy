/**
 Arrival times in transport-wide feedback (src/congestion/twcc_feedback.c): every received
 packet is reported as a difference, in units of 250 microseconds, to the clock the receiver
 of the feedback will have reconstructed by then, so rounding errors do not add up.
 */
module TwccTiming {
  import opened Wrappers

  const UNIT_US := 250
  const REF_UNIT_US := 64_000
  const REF_RANGE_US := 1_073_741_824_000 // 2^24 reference units

  datatype Status = Lost | Small | Large

  /** One reported packet: how it is marked, and the difference in units. */
  datatype Report = Report(status: Status, units: int)

  /** Rounds half away from zero. */
  function Units(d: int): int { if d >= 0 then (d + 125) / UNIT_US else -((-d + 125) / UNIT_US) }

  /** The units that are sent: cut to 16 bits. */
  function Clamped(u: int): int { if u > 32767 then 32767 else if u < -32768 then -32768 else u }

  function StatusOf(u: int): Status { if 0 <= u <= 255 then Small else Large }

  /** The loop that follows the reconstructed clock. */
  function Reports(arrivals: seq<Option<int>>, clock: int): (r: seq<Report>)
    ensures |r| == |arrivals|
    decreases |arrivals|
  {
    if arrivals == [] then []
    else if arrivals[0].None? then [Report(Lost, 0)] + Reports(arrivals[1..], clock)
    else
      var u := Units(arrivals[0].value - clock);
      [Report(StatusOf(u), Clamped(u))] + Reports(arrivals[1..], clock + Clamped(u) * UNIT_US)
  }

  /** No difference lies outside what 16 bits can say by more than half a unit. */
  predicate Representable(arrivals: seq<Option<int>>, clock: int)
    decreases |arrivals|
  {
    if arrivals == [] then true
    else if arrivals[0].None? then Representable(arrivals[1..], clock)
    else
      var d := arrivals[0].value - clock;
      && -32768 * UNIT_US - 125 <= d <= 32767 * UNIT_US + 125
      && Representable(arrivals[1..], clock + Clamped(Units(d)) * UNIT_US)
  }

  /** What the receiver of the reports makes of them. */
  function Replay(reports: seq<Report>, clock: int): (times: seq<Option<int>>)
    ensures |times| == |reports|
    decreases |reports|
  {
    if reports == [] then []
    else if reports[0].status == Lost then [None] + Replay(reports[1..], clock)
    else
      var t := clock + reports[0].units * UNIT_US;
      [Some(t)] + Replay(reports[1..], t)
  }

  ghost predicate Close(arrival: Option<int>, time: Option<int>) {
    (arrival.Some? <==> time.Some?) && (arrival.Some? ==> -125 <= arrival.value - time.value <= 125)
  }

  /** Rounding errs by at most half a unit; clamping errs by no more exactly in this range. */
  lemma UnitsAreClose(d: int)
    ensures -125 <= d - Clamped(Units(d)) * UNIT_US <= 125 <==> -32768 * UNIT_US - 125 <= d <= 32767 * UNIT_US + 125
  {
  }

  lemma ReportsRest(arrivals: seq<Option<int>>, clock: int)
    requires arrivals != []
    ensures var u := if arrivals[0].None? then 0 else Clamped(Units(arrivals[0].value - clock));
      && Reports(arrivals, clock)[1..] == Reports(arrivals[1..], clock + u * UNIT_US)
      && Replay(Reports(arrivals, clock), clock)[1..] ==
           Replay(Reports(arrivals[1..], clock + u * UNIT_US), clock + u * UNIT_US)
  {
    hide Units, Clamped;
  }

  /** Every time comes back within half a unit, however many packets came before. */
  lemma {:induction false} ReplayIsClose(arrivals: seq<Option<int>>, clock: int, i: nat)
    requires Representable(arrivals, clock) && i < |arrivals|
    ensures Close(arrivals[i], Replay(Reports(arrivals, clock), clock)[i])
    decreases |arrivals|
  {
    hide Units, Clamped;
    ReportsRest(arrivals, clock);
    var u := if arrivals[0].None? then 0 else Clamped(Units(arrivals[0].value - clock));
    if i > 0 {
      ReplayIsClose(arrivals[1..], clock + u * UNIT_US, i - 1);
    } else if arrivals[0].Some? {
      UnitsAreClose(arrivals[0].value - clock);
    }
  }

  /** Otherwise some time does not. */
  lemma {:induction false} ReplayMisses(arrivals: seq<Option<int>>, clock: int) returns (i: nat)
    requires !Representable(arrivals, clock)
    ensures i < |arrivals| && !Close(arrivals[i], Replay(Reports(arrivals, clock), clock)[i])
    decreases |arrivals|
  {
    hide Units, Clamped;
    ReportsRest(arrivals, clock);
    var u := if arrivals[0].None? then 0 else Clamped(Units(arrivals[0].value - clock));
    if arrivals[0].Some? { UnitsAreClose(arrivals[0].value - clock); }
    if Representable(arrivals[1..], clock + u * UNIT_US) {
      i := 0;
    } else {
      var j := ReplayMisses(arrivals[1..], clock + u * UNIT_US);
      i := j + 1;
    }
  }

  /** A clock that is off by some time is off by it for every packet. */
  lemma {:induction false} ReplayShifts(reports: seq<Report>, clock: int, off: int, i: nat)
    requires i < |reports|
    ensures var t, t' := Replay(reports, clock)[i], Replay(reports, clock + off)[i];
      (t.Some? <==> t'.Some?) && (t.Some? ==> t'.value == t.value + off)
    decreases |reports|
  {
    if i > 0 {
      ReplayShifts(reports[1..], if reports[0].status == Lost then clock else clock + reports[0].units * UNIT_US,
                   off, i - 1);
    }
  }

  function FirstArrival(arrivals: seq<Option<int>>): int {
    if arrivals == [] then 0 else if arrivals[0].Some? then arrivals[0].value else FirstArrival(arrivals[1..])
  }

  /** The first packet that was received comes back close if the clock starts a little before it. */
  lemma {:induction false} FirstIsClose(arrivals: seq<Option<int>>, clock: int) returns (i: nat)
    requires exists k :: 0 <= k < |arrivals| && arrivals[k].Some?
    requires 0 <= FirstArrival(arrivals) - clock < REF_UNIT_US
    ensures i < |arrivals| && arrivals[i].Some? && Close(arrivals[i], Replay(Reports(arrivals, clock), clock)[i])
    decreases |arrivals|
  {
    ReportsRest(arrivals, clock);
    if arrivals[0].Some? {
      UnitsAreClose(arrivals[0].value - clock);
      i := 0;
    } else {
      var k :| 0 <= k < |arrivals| && arrivals[k].Some?;
      assert arrivals[1..][k - 1].Some?;
      var j := FirstIsClose(arrivals[1..], clock);
      i := j + 1;
    }
  }

  /** Small differences fit a byte, large ones two. */
  lemma {:induction false} ReportsFit(arrivals: seq<Option<int>>, clock: int, i: nat)
    requires i < |arrivals|
    ensures var r := Reports(arrivals, clock)[i];
      match r.status
      case Lost => r.units == 0
      case Small => 0 <= r.units <= 255
      case Large => -32768 <= r.units <= 32767
    decreases |arrivals|
  {
    if i > 0 {
      var u := if arrivals[0].None? then 0 else Clamped(Units(arrivals[0].value - clock));
      assert Reports(arrivals, clock)[1..] == Reports(arrivals[1..], clock + u * UNIT_US);
      ReportsFit(arrivals[1..], clock + u * UNIT_US, i - 1);
    }
  }

  // ------------------------------------------------------------------- reference time

  /** The reference in 64 ms units, cut to 24 bits. */
  function RefQuant(refUs: nat): nat { refUs / REF_UNIT_US % 0x100_0000 }

  function RefFloor(refUs: nat): nat { refUs / REF_UNIT_US * REF_UNIT_US }

  /** The remainder with the sign of the dividend. */
  function TruncMod(a: int, b: int): int
    requires b > 0
  {
    if a >= 0 then a % b else -((-a) % b)
  }

  /** Unwraps a 24-bit reference to the time nearest to the anchor, if there is one. */
  function Unwrap(quant: nat, anchor: int): int {
    var ref := quant * REF_UNIT_US;
    if anchor <= 0 then ref
    else
      var delta := TruncMod(ref - TruncMod(anchor, REF_RANGE_US), REF_RANGE_US) + REF_RANGE_US + REF_RANGE_US / 2;
      anchor + delta % REF_RANGE_US - REF_RANGE_US / 2
  }

  /** Where the unwrapped reference is the true one. */
  predicate Unambiguous(refUs: nat, anchor: int) {
    if anchor <= 0 then RefFloor(refUs) < REF_RANGE_US
    else -(REF_RANGE_US / 2) <= RefFloor(refUs) - anchor < REF_RANGE_US / 2
  }

  /** The reference comes back exactly when it was unambiguous. */
  lemma UnwrapIsExact(refUs: nat, anchor: int)
    ensures Unwrap(RefQuant(refUs), anchor) == RefFloor(refUs) <==> Unambiguous(refUs, anchor)
  {
    var q := refUs / REF_UNIT_US;
    var wraps := q / 0x100_0000;
    assert q == wraps * 0x100_0000 + RefQuant(refUs);
    assert RefFloor(refUs) == wraps * REF_RANGE_US + RefQuant(refUs) * REF_UNIT_US;
    if anchor > 0 {
      var a := anchor / REF_RANGE_US;
      assert anchor == a * REF_RANGE_US + anchor % REF_RANGE_US;
      FoldIsNearest(RefQuant(refUs) * REF_UNIT_US - anchor % REF_RANGE_US, RefFloor(refUs) - anchor, wraps - a);
    }
  }

  /** An ambiguous reference comes back a whole number of ranges away. */
  lemma UnwrapIsFarOff(refUs: nat, anchor: int)
    requires !Unambiguous(refUs, anchor)
    ensures var off := Unwrap(RefQuant(refUs), anchor) - RefFloor(refUs); off <= -REF_RANGE_US || REF_RANGE_US <= off
  {
    UnwrapIsExact(refUs, anchor);
    var q := refUs / REF_UNIT_US;
    var wraps := q / 0x100_0000;
    assert RefFloor(refUs) == wraps * REF_RANGE_US + RefQuant(refUs) * REF_UNIT_US;
    var m := UnwrapIsCongruent(RefQuant(refUs), anchor);
    assert Unwrap(RefQuant(refUs), anchor) - RefFloor(refUs) == (m - wraps) * REF_RANGE_US;
  }

  lemma UnwrapIsCongruent(quant: nat, anchor: int) returns (m: int)
    requires quant < 0x100_0000
    ensures Unwrap(quant, anchor) == quant * REF_UNIT_US + m * REF_RANGE_US
  {
    var ref := quant * REF_UNIT_US;
    if anchor <= 0 {
      m := 0;
    } else {
      var a, r := anchor / REF_RANGE_US, anchor % REF_RANGE_US;
      var sum := ref - r + REF_RANGE_US + REF_RANGE_US / 2;
      m := a + 1 - sum / REF_RANGE_US;
      assert sum == sum / REF_RANGE_US * REF_RANGE_US + sum % REF_RANGE_US;
    }
  }

  /** Folding into half a range on both sides finds the one multiple that fits. */
  lemma FoldIsNearest(d: int, x: int, k: int)
    requires -REF_RANGE_US < d < REF_RANGE_US && x == d + k * REF_RANGE_US
    ensures var f := (TruncMod(d, REF_RANGE_US) + REF_RANGE_US + REF_RANGE_US / 2) % REF_RANGE_US - REF_RANGE_US / 2;
      f == x <==> -(REF_RANGE_US / 2) <= x < REF_RANGE_US / 2
  {
    var f := (TruncMod(d, REF_RANGE_US) + REF_RANGE_US + REF_RANGE_US / 2) % REF_RANGE_US - REF_RANGE_US / 2;
    assert TruncMod(d, REF_RANGE_US) == d;
    if d >= REF_RANGE_US / 2 {
      assert f == d - REF_RANGE_US;
    } else if d < -(REF_RANGE_US / 2) {
      assert f == d + REF_RANGE_US;
    } else {
      assert f == d;
    }
  }
}

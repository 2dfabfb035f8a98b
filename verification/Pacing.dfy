/**
 The pacer (src/congestion/pacer.c): a token bucket in bytes with reservations.  A charged
 reservation holds bytes back until it is committed (the packet was accepted for sending) or
 cancelled.  The retransmission budget is a separate counter and not part of this model.
 */
module Pacing {
  import opened Wrappers
  import opened Arithmetic

  const BURST_US := 10_000
  const MIN_BUCKET_BYTES := 1_500

  datatype PacerClass = Audio | Rtx | VideoBase | VideoTransition | VideoEnh

  datatype Bucket = Bucket(active: bool, rate: nat, cap: int, balance: int, reserved: int, lastRefill: int)

  datatype Reservation = Reservation(bytes: nat, active: bool, charged: bool)

  const NO_RESERVATION := Reservation(0, false, false)

  /** Bytes a reservation holds back in the bucket. */
  function Held(r: Reservation): nat { if r.active && r.charged then r.bytes else 0 }

  /** Five halves of the target rate; the stored rate is cut to 32 bits, the cap is not. */
  function SetRate(b: Bucket, bps: nat, now: int): Bucket {
    if bps == 0 then b.(active := false, rate := 0)
    else
      var paced := bps * 5 / 2;
      var cap := Max(paced / 8 * BURST_US / 1_000_000, MIN_BUCKET_BYTES);
      var rated := b.(active := true, rate := paced % 0x1_0000_0000, cap := cap);
      if b.active then rated.(balance := Min(b.balance, cap)) else rated.(balance := cap, lastRefill := now)
  }

  function Refill(b: Bucket, now: int): Bucket {
    if b.lastRefill == 0 then b.(lastRefill := now)
    else if now <= b.lastRefill then b
    else
      var tokens := b.rate / 8 * (now - b.lastRefill) / 1_000_000;
      if tokens <= 0 then b.(lastRefill := now)
      else b.(lastRefill := now, balance := Min(b.balance + tokens, b.cap))
  }

  predicate Charges(b: Bucket, cls: PacerClass) { cls != Audio && b.active }

  /** The only refusal: an enhancement frame start that would overdraw by more than a bucket. */
  predicate Refuses(b: Bucket, cls: PacerClass, bytes: nat, allowDrop: bool, now: int) {
    && Charges(b, cls) && cls == VideoEnh && allowDrop
    && var after := Refill(b, now).balance - b.reserved - bytes; after < 0 && -after > b.cap
  }

  function Reserve(b: Bucket, cls: PacerClass, bytes: nat, allowDrop: bool, now: int): (Bucket, Option<Reservation>) {
    if !Charges(b, cls) then (b, Some(Reservation(bytes, true, false)))
    else if Refuses(b, cls, bytes, allowDrop, now) then (Refill(b, now), None)
    else (Refill(b, now).(reserved := b.reserved + bytes), Some(Reservation(bytes, true, true)))
  }

  function Commit(b: Bucket, r: Reservation): Bucket
  {
    b.(reserved := b.reserved - Held(r), balance := b.balance - Held(r))
  }

  function Cancel(b: Bucket, r: Reservation): Bucket { b.(reserved := b.reserved - Held(r)) }

  /** The balance never exceeds the cap while the pacer is on. */
  predicate BucketInv(b: Bucket) { b.active ==> b.balance <= b.cap && b.cap >= MIN_BUCKET_BYTES }

  lemma SetRateKeeps(b: Bucket, bps: nat, now: int)
    ensures BucketInv(b) ==> BucketInv(SetRate(b, bps, now))
    ensures SetRate(b, bps, now).reserved == b.reserved
  {
  }

  /** A refill never lowers the balance, and nothing but the balance and the clock moves. */
  lemma RefillOnlyAdds(b: Bucket, now: int)
    requires BucketInv(b) && b.active
    ensures var r := Refill(b, now);
      BucketInv(r) && r.balance >= b.balance && r == b.(balance := r.balance, lastRefill := r.lastRefill)
  {
  }

  /** Reserving leaves the balance to the refill and holds exactly the reservation's bytes. */
  lemma ReserveHolds(b: Bucket, cls: PacerClass, bytes: nat, allowDrop: bool, now: int)
    requires BucketInv(b)
    ensures var (b', r) := Reserve(b, cls, bytes, allowDrop, now);
      && BucketInv(b') && b'.balance >= b.balance
      && b'.reserved == b.reserved + (if r.Some? then Held(r.value) else 0)
      && (r.Some? ==> r.value.active && r.value.bytes == bytes)
      && (r.None? <==> Refuses(b, cls, bytes, allowDrop, now))
  {
    if Charges(b, cls) { RefillOnlyAdds(b, now); }
  }

  /** Cancelling undoes the reservation; committing moves its bytes out of the balance. */
  lemma ReserveThenSettle(b: Bucket, cls: PacerClass, bytes: nat, allowDrop: bool, now: int)
    requires BucketInv(b) && Reserve(b, cls, bytes, allowDrop, now).1.Some?
    ensures var (b', r) := Reserve(b, cls, bytes, allowDrop, now);
      && Cancel(b', r.value) == b'.(reserved := b.reserved)
      && Commit(b', r.value) == b'.(reserved := b.reserved, balance := b'.balance - Held(r.value))
      && (forall other: Bucket ::
            Cancel(other, r.value.(active := false)) == other && Commit(other, r.value.(active := false)) == other)
  {
    ReserveHolds(b, cls, bytes, allowDrop, now);
  }

  class Pacer {
    var active: bool
    var rate: nat
    var cap: int
    var balance: int
    var reserved: int
    var lastRefill: int

    ghost function State(): Bucket
      reads this
    {
      Bucket(active, rate, cap, balance, reserved, lastRefill)
    }

    constructor ()
      ensures State() == Bucket(false, 0, 0, 0, 0, 0)
    {
      active, rate, cap, balance, reserved, lastRefill := false, 0, 0, 0, 0, 0;
    }

    method SetPacingRate(bps: nat, now: int)
      modifies this
      ensures State() == SetRate(old(State()), bps, now)
    {
      if bps == 0 {
        active, rate := false, 0;
        return;
      }
      var paced := bps * 5 / 2;
      rate := paced % 0x1_0000_0000;
      cap := paced / 8 * BURST_US / 1_000_000;
      if cap < MIN_BUCKET_BYTES { cap := MIN_BUCKET_BYTES; }
      if !active {
        balance, lastRefill, active := cap, now, true;
      } else if balance > cap {
        balance := cap;
      }
    }

    method RefillTokens(now: int)
      modifies this`balance, this`lastRefill
      ensures State() == Refill(old(State()), now)
    {
      if lastRefill == 0 || now <= lastRefill {
        if lastRefill == 0 { lastRefill := now; }
        return;
      }
      var elapsed := now - lastRefill;
      lastRefill := now;
      var tokens := rate / 8 * elapsed / 1_000_000;
      if tokens <= 0 { return; }
      balance := balance + tokens;
      if balance > cap { balance := cap; }
    }

    method ReserveBytes(cls: PacerClass, bytes: nat, allowDrop: bool, now: int) returns (r: Option<Reservation>)
      modifies this`balance, this`lastRefill, this`reserved
      ensures (State(), r) == Reserve(old(State()), cls, bytes, allowDrop, now)
    {
      var charged := cls != Audio && active;
      if charged {
        RefillTokens(now);
        var after := balance - reserved - bytes;
        if after < 0 && allowDrop && cls == VideoEnh && -after > cap { return None; }
        reserved := reserved + bytes;
      }
      r := Some(Reservation(bytes, true, charged));
    }

    method CommitReservation(r: Reservation) returns (settled: Reservation)
      modifies this`balance, this`reserved
      ensures State() == Commit(old(State()), r) && settled == r.(active := false)
    {
      if r.active && r.charged { reserved, balance := reserved - r.bytes, balance - r.bytes; }
      settled := r.(active := false);
    }

    method CancelReservation(r: Reservation) returns (settled: Reservation)
      modifies this`reserved
      ensures State() == Cancel(old(State()), r) && settled == r.(active := false)
    {
      if r.active && r.charged { reserved := reserved - r.bytes; }
      settled := r.(active := false);
    }
  }
}

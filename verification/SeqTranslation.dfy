/**
 The outbound sequence-number translator (src/rtp/rtp_seq_translate.c): a table of 2048
 places with linear probing, from SSRC to the next number to hand out.  Places are never
 emptied, so a key sits before the first empty place of its probe sequence.
 */
module SeqTranslation {
  import opened Wrappers
  import opened Arithmetic

  const TRANSLATOR_CAP: nat := 2048

  type Ssrc = n: nat | n < 0x1_0000_0000

  datatype Place = Vacant | Taken(ssrc: Ssrc, next: nat)

  function HashSsrc(ssrc: bv32): bv32 {
    var a := ssrc ^ (ssrc >> 16);
    var b := a * 0x7feb352d;
    var c := b ^ (b >> 15);
    var d := c * 0x846ca68b;
    d ^ (d >> 16)
  }

  function Home(ssrc: Ssrc): nat { HashSsrc(ssrc as bv32) as nat % TRANSLATOR_CAP }

  function PlaceAt(ssrc: Ssrc, k: nat): (p: nat)
    ensures p < TRANSLATOR_CAP
  {
    (Home(ssrc) + k) % TRANSLATOR_CAP
  }

  // ------------------------------------------------------------- the map it implements

  type Numbering = map<Ssrc, nat>

  /** A known stream gets its next number, a new one starts with its own source number; a new
      stream is refused exactly when 2048 streams are known. */
  function Translate(m: Numbering, ssrc: Ssrc, source: nat): (Numbering, Option<nat>) {
    if ssrc in m then (m[ssrc := (m[ssrc] + 1) % SEQ_MOD], Some(m[ssrc]))
    else if |m| < TRANSLATOR_CAP then (m[ssrc := (source + 1) % SEQ_MOD], Some(source))
    else (m, None)
  }

  function Rollback(m: Numbering, ssrc: Ssrc, count: nat): Numbering {
    if ssrc in m && count > 0 then m[ssrc := (m[ssrc] - count) % SEQ_MOD] else m
  }

  /** Handing a number out and taking it back leaves the stream where it was. */
  lemma TranslateThenRollback(m: Numbering, ssrc: Ssrc, source: nat)
    requires Translate(m, ssrc, source).1.Some? && source < SEQ_MOD && (ssrc in m ==> m[ssrc] < SEQ_MOD)
    ensures var (m', out) := Translate(m, ssrc, source); Rollback(m', ssrc, 1) == m[ssrc := out.value]
  {
    var x := Translate(m, ssrc, source).1.value;
    assert ((x + 1) % SEQ_MOD - 1) % SEQ_MOD == x by { if x == SEQ_MOD - 1 { assert (x + 1) % SEQ_MOD == 0; } }
    assert m[ssrc := (x + 1) % SEQ_MOD][ssrc := x] == m[ssrc := x];
  }

  // ------------------------------------------------------------------------- the table

  /** Every taken place is reachable: no vacant place lies before it on its probe sequence. */
  ghost predicate Reachable(places: seq<Place>, p: nat)
    requires |places| == TRANSLATOR_CAP && p < TRANSLATOR_CAP
  {
    places[p].Taken? ==> exists k: nat :: AtDistance(places, p, k)
  }

  ghost predicate AtDistance(places: seq<Place>, p: nat, k: nat)
    requires |places| == TRANSLATOR_CAP && p < TRANSLATOR_CAP && places[p].Taken?
  {
    && k < TRANSLATOR_CAP && PlaceAt(places[p].ssrc, k) == p
    && forall j: nat | j < k :: places[PlaceAt(places[p].ssrc, j)].Taken?
  }

  ghost predicate TableOk(places: seq<Place>) {
    && |places| == TRANSLATOR_CAP
    && (forall p {:trigger Reachable(places, p)} | 0 <= p < TRANSLATOR_CAP :: Reachable(places, p))
    && (forall p, q | 0 <= p < q < TRANSLATOR_CAP && places[p].Taken? && places[q].Taken? ::
          places[p].ssrc != places[q].ssrc)
  }

  /** The numbering stored in a table. */
  ghost function Stored(places: seq<Place>): Numbering {
    if places == [] then map[]
    else
      var n := |places| - 1;
      var m := Stored(places[..n]);
      if places[n].Taken? then m[places[n].ssrc := places[n].next] else m
  }

  ghost predicate DistinctStreams(places: seq<Place>) {
    forall p, q | 0 <= p < q < |places| && places[p].Taken? && places[q].Taken? :: places[p].ssrc != places[q].ssrc
  }

  lemma {:induction false} StoredIs(places: seq<Place>)
    requires DistinctStreams(places)
    ensures forall p | 0 <= p < |places| && places[p].Taken? ::
      places[p].ssrc in Stored(places) && Stored(places)[places[p].ssrc] == places[p].next
    ensures forall u | u in Stored(places) :: exists p :: 0 <= p < |places| && places[p].Taken? && places[p].ssrc == u
  {
    if places != [] {
      var n := |places| - 1;
      StoredIs(places[..n]);
      forall p | 0 <= p < |places| && places[p].Taken?
        ensures places[p].ssrc in Stored(places) && Stored(places)[places[p].ssrc] == places[p].next
      {
        if p < n {
          assert places[..n][p] == places[p];
          assert places[n].Taken? ==> places[p].ssrc != places[n].ssrc;
        }
      }
      forall u | u in Stored(places) ensures exists p :: 0 <= p < |places| && places[p].Taken? && places[p].ssrc == u {
        if u in Stored(places[..n]) {
          var p :| 0 <= p < n && places[..n][p].Taken? && places[..n][p].ssrc == u;
          assert places[p].Taken?;
        } else {
          assert places[n].Taken?;
        }
      }
    }
  }

  /** A place that is taken, or that the stream may take, is where the map changes. */
  lemma {:induction false} StoredUpdate(places: seq<Place>, p: nat, ssrc: Ssrc, next: nat)
    requires DistinctStreams(places) && p < |places|
    requires places[p].Taken? ==> places[p].ssrc == ssrc
    requires places[p].Vacant? ==> forall q | 0 <= q < |places| && places[q].Taken? :: places[q].ssrc != ssrc
    ensures Stored(places[p := Taken(ssrc, next)]) == Stored(places)[ssrc := next]
  {
    var n := |places| - 1;
    var after := places[p := Taken(ssrc, next)];
    if p == n {
      assert after[..n] == places[..n];
    } else {
      StoredUpdate(places[..n], p, ssrc, next);
      assert after[..n] == places[..n][p := Taken(ssrc, next)];
      assert after[n] == places[n];
      if places[n].Taken? {
        assert places[n].ssrc != ssrc;
      }
    }
  }

  /** The map is full exactly when no place is vacant. */
  lemma {:induction false} StoredSize(places: seq<Place>)
    requires DistinctStreams(places)
    ensures |Stored(places)| <= |places|
    ensures |Stored(places)| == |places| <==> forall p | 0 <= p < |places| :: places[p].Taken?
  {
    if places != [] {
      var n := |places| - 1;
      StoredSize(places[..n]);
      StoredIs(places[..n]);
      var m := Stored(places[..n]);
      if places[n].Taken? {
        assert places[n].ssrc !in m;
        assert Stored(places).Keys == m.Keys + {places[n].ssrc};
        if forall p | 0 <= p < n :: places[..n][p].Taken? {
          assert forall p | 0 <= p < n :: places[p] == places[..n][p];
        }
      }
    }
  }

  /** Every place lies on every probe sequence. */
  lemma ReachesAll(ssrc: Ssrc, p: nat) returns (k: nat)
    requires p < TRANSLATOR_CAP
    ensures k < TRANSLATOR_CAP && PlaceAt(ssrc, k) == p
  {
    hide HashSsrc, Home;
    k := (p + TRANSLATOR_CAP - Home(ssrc)) % TRANSLATOR_CAP;
  }

  /** A vacant place on the way means the stream is not known. */
  lemma NotBeyondVacant(places: seq<Place>, ssrc: Ssrc, stop: nat)
    requires TableOk(places) && stop < TRANSLATOR_CAP && places[PlaceAt(ssrc, stop)].Vacant?
    requires forall j: nat | j < stop :: places[PlaceAt(ssrc, j)].Taken? && places[PlaceAt(ssrc, j)].ssrc != ssrc
    ensures forall p | 0 <= p < TRANSLATOR_CAP && places[p].Taken? :: places[p].ssrc != ssrc
  {
    hide HashSsrc, PlaceAt;
    forall p | 0 <= p < TRANSLATOR_CAP && places[p].Taken? ensures places[p].ssrc != ssrc {
      assert Reachable(places, p);
      var k: nat :| AtDistance(places, p, k);
      if places[p].ssrc == ssrc {
        if k < stop { assert false; } else if k == stop { assert false; } else { assert false; }
      }
    }
  }

  /** Taking a place keeps every other place reachable. */
  lemma TakeKeeps(places: seq<Place>, p: nat, ssrc: Ssrc, next: nat, k: nat)
    requires TableOk(places) && p < TRANSLATOR_CAP && k < TRANSLATOR_CAP && PlaceAt(ssrc, k) == p
    requires forall j: nat | j < k :: places[PlaceAt(ssrc, j)].Taken?
    requires places[p].Taken? ==> places[p].ssrc == ssrc
    requires places[p].Vacant? ==> forall q | 0 <= q < TRANSLATOR_CAP && places[q].Taken? :: places[q].ssrc != ssrc
    ensures TableOk(places[p := Taken(ssrc, next)])
  {
    hide HashSsrc, PlaceAt;
    var after := places[p := Taken(ssrc, next)];
    forall q | 0 <= q < TRANSLATOR_CAP ensures Reachable(after, q) {
      if after[q].Taken? {
        if q == p {
          assert AtDistance(after, p, k);
        } else {
          assert Reachable(places, q);
          var d: nat :| AtDistance(places, q, d);
          assert AtDistance(after, q, d);
        }
      }
    }
  }

  class Translator {
    var places: array<Place>

    ghost predicate Valid()
      reads this, places
    {
      TableOk(places[..])
    }

    ghost function Numbers(): Numbering
      reads this, places
    {
      Stored(places[..])
    }

    constructor ()
      ensures Valid() && fresh(places) && Numbers() == map[]
    {
      places := new Place[TRANSLATOR_CAP](_ => Vacant);
      new;
      StoredIs(places[..]);
      assert Stored(places[..]).Keys == {};
    }

    /** Hands out the next number of a stream. */
    method Next(ssrc: Ssrc, source: nat) returns (out: Option<nat>)
      requires Valid()
      modifies places
      ensures Valid() && (Numbers(), out) == Translate(old(Numbers()), ssrc, source)
    {
      hide HashSsrc, Home, Stored;
      ghost var before := places[..];
      StoredIs(before);
      for probe := 0 to TRANSLATOR_CAP
        invariant places[..] == before
        invariant forall j: nat | j < probe :: before[PlaceAt(ssrc, j)].Taken? && before[PlaceAt(ssrc, j)].ssrc != ssrc
      {
        var p := PlaceAt(ssrc, probe);
        if places[p].Vacant? {
          NotBeyondVacant(before, ssrc, probe);
          StoredSize(before);
          var fresh' := Taken(ssrc, (source + 1) % SEQ_MOD);
          TakeKeeps(before, p, ssrc, (source + 1) % SEQ_MOD, probe);
          StoredUpdate(before, p, ssrc, (source + 1) % SEQ_MOD);
          places[p] := fresh';
          assert places[..] == before[p := fresh'];
          return Some(source);
        }
        if places[p].ssrc == ssrc {
          var n := places[p].next;
          TakeKeeps(before, p, ssrc, (n + 1) % SEQ_MOD, probe);
          StoredUpdate(before, p, ssrc, (n + 1) % SEQ_MOD);
          assert before[p].Taken?;
          places[p] := Taken(ssrc, (n + 1) % SEQ_MOD);
          assert places[..] == before[p := Taken(ssrc, (n + 1) % SEQ_MOD)];
          return Some(n);
        }
      }
      Crowded(before, ssrc);
      out := None;
    }

    /** Takes back the last `count` numbers of a stream. */
    method TakeBack(ssrc: Ssrc, count: nat) returns (ok: bool)
      requires Valid()
      modifies places
      ensures Valid() && Numbers() == Rollback(old(Numbers()), ssrc, count)
      ensures ok <==> count > 0 && ssrc in old(Numbers())
    {
      hide HashSsrc, Home, Stored;
      if count == 0 { return false; }
      ghost var before := places[..];
      StoredIs(before);
      for probe := 0 to TRANSLATOR_CAP
        invariant places[..] == before
        invariant forall j: nat | j < probe :: before[PlaceAt(ssrc, j)].Taken? && before[PlaceAt(ssrc, j)].ssrc != ssrc
      {
        var p := PlaceAt(ssrc, probe);
        if places[p].Vacant? {
          NotBeyondVacant(before, ssrc, probe);
          return false;
        }
        if places[p].ssrc == ssrc {
          var n := (places[p].next - count) % SEQ_MOD;
          TakeKeeps(before, p, ssrc, n, probe);
          StoredUpdate(before, p, ssrc, n);
          assert before[p].Taken?;
          places[p] := Taken(ssrc, n);
          assert places[..] == before[p := Taken(ssrc, n)];
          return true;
        }
      }
      Crowded(before, ssrc);
      ok := false;
    }
  }

  /** A probe that finds neither the stream nor a vacant place has seen a full table. */
  lemma Crowded(places: seq<Place>, ssrc: Ssrc)
    requires TableOk(places)
    requires forall j: nat | j < TRANSLATOR_CAP ::
      places[PlaceAt(ssrc, j)].Taken? && places[PlaceAt(ssrc, j)].ssrc != ssrc
    ensures ssrc !in Stored(places) && |Stored(places)| == TRANSLATOR_CAP
  {
    hide HashSsrc, PlaceAt, Stored;
    StoredIs(places);
    forall p | 0 <= p < TRANSLATOR_CAP ensures places[p].Taken? && places[p].ssrc != ssrc {
      var k := ReachesAll(ssrc, p);
    }
    StoredSize(places);
  }
}

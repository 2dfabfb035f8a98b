/**
 The receive tracker that builds feedback packets and the parser that reads them, with the
 source's loops and in-place updates, proved to compute the functions of `TwccRoundTrip`.
 */
module TwccMachines {
  import opened Wrappers
  import opened Arithmetic
  import opened Bytes
  import opened TwccTiming
  import opened TwccWire
  import opened TwccRoundTrip

  const RECV_CAPACITY: nat := 1024

  // ----------------------------------------------------------------------- build loops

  lemma ReportsStep(arrivals: seq<Option<int>>, i: nat, clock: int)
    requires i < |arrivals|
    ensures var u := if arrivals[i].None? then 0 else Clamped(Units(arrivals[i].value - clock));
      Reports(arrivals[i..], clock) ==
        [if arrivals[i].None? then Report(Lost, 0) else Report(StatusOf(Units(arrivals[i].value - clock)), u)]
        + Reports(arrivals[i + 1..], clock + u * UNIT_US)
  {
    assert arrivals[i..][1..] == arrivals[i + 1..];
  }

  /** The loop that turns arrivals into differences to the reconstructed clock. */
  method ComputeReports(arrivals: seq<Option<int>>, start: int) returns (reports: seq<Report>)
    ensures reports == Reports(arrivals, start)
  {
    hide Units, Clamped, StatusOf, Reports;
    reports := [];
    var clock := start;
    assert arrivals[0..] == arrivals;
    assert [] + Reports(arrivals, start) == Reports(arrivals, start);
    for i := 0 to |arrivals|
      invariant reports + Reports(arrivals[i..], clock) == Reports(arrivals, start)
    {
      ReportsStep(arrivals, i, clock);
      match arrivals[i] {
        case None => reports := reports + [Report(Lost, 0)];
        case Some(a) =>
          var units := Units(a - clock);
          var status := StatusOf(units);
          units := Clamped(units);
          reports := reports + [Report(status, units)];
          clock := clock + units * UNIT_US;
      }
    }
    NoReports(arrivals[|arrivals|..], clock);
  }

  lemma NoReports(arrivals: seq<Option<int>>, clock: int)
    requires arrivals == []
    ensures Reports(arrivals, clock) == []
  {
  }

  /** One run for equal statuses, otherwise vectors of seven. */
  method ComputeChunks(statuses: seq<Status>) returns (chunks: seq<nat>)
    requires statuses != []
    ensures chunks == Chunks(statuses)
  {
    hide VectorChunk;
    var uniform := true;
    var i := 1;
    while i < |statuses|
      invariant 1 <= i <= |statuses| && uniform && forall j | 0 <= j < i :: statuses[j] == statuses[0]
    {
      if statuses[i] != statuses[0] {
        uniform := false;
        break;
      }
      i := i + 1;
    }
    if uniform { return [RunChunk(statuses[0], |statuses|)]; }
    chunks := [];
    i := 0;
    assert statuses[0..] == statuses;
    while i < |statuses|
      invariant i <= |statuses| && chunks + VectorChunks(statuses[i..]) == VectorChunks(statuses)
      decreases |statuses| - i
    {
      var n := if |statuses| - i > 7 then 7 else |statuses| - i;
      assert statuses[i..][..n] == statuses[i..i + n];
      if n == 7 && i + 7 < |statuses| {
        assert statuses[i..][7..] == statuses[i + 7..];
      } else {
        assert statuses[i..] == statuses[i..i + n] && statuses[i + n..] == [];
      }
      chunks := chunks + [VectorChunk(statuses[i..i + n])];
      i := i + n;
    }
    assert statuses[i..] == [];
  }

  /** The bytes of all differences. */
  method ComputeDeltas(reports: seq<Report>) returns (bytes: seq<Byte>)
    ensures bytes == DeltaBytes(reports)
  {
    hide DeltaOf;
    bytes := [];
    assert reports[0..] == reports;
    for i := 0 to |reports|
      invariant bytes + DeltaBytes(reports[i..]) == DeltaBytes(reports)
    {
      assert reports[i..][1..] == reports[i + 1..];
      bytes := bytes + DeltaOf(reports[i]);
    }
    assert reports[|reports|..] == [];
  }

  method ComputeChunkBytes(chunks: seq<nat>) returns (bytes: seq<Byte>)
    ensures bytes == ChunkBytes(chunks)
  {
    hide Halves;
    bytes := [];
    assert chunks[0..] == chunks;
    for i := 0 to |chunks|
      invariant bytes + ChunkBytes(chunks[i..]) == ChunkBytes(chunks)
    {
      assert chunks[i..][1..] == chunks[i + 1..];
      bytes := bytes + Halves(chunks[i]);
    }
    assert chunks[|chunks|..] == [];
  }

  // --------------------------------------------------------------------------- tracker

  datatype Entry = Empty | Held(seqNo: nat, arrival: nat)

  /** What the ring says about `n` numbers from `base` on. */
  function Window(entries: seq<Entry>, base: nat, n: nat): (w: seq<Option<int>>)
    requires |entries| == RECV_CAPACITY
    ensures |w| == n
    ensures forall i | 0 <= i < n ::
      w[i] == Arrival(entries, (base + i) % SEQ_MOD) && (w[i].Some? ==> w[i].value >= 0)
  {
    if n == 0 then [] else Window(entries, base, n - 1) + [Arrival(entries, (base + n - 1) % SEQ_MOD)]
  }

  function Arrival(entries: seq<Entry>, seqNo: nat): Option<int>
    requires |entries| == RECV_CAPACITY
  {
    var e := entries[seqNo % RECV_CAPACITY];
    if e.Held? && e.seqNo == seqNo then Some(e.arrival) else None
  }

  lemma {:induction false} FirstIsReceived(w: seq<Option<int>>)
    requires forall i | 0 <= i < |w| && w[i].Some? :: w[i].value >= 0
    ensures FirstArrival(w) >= 0
  {
    if w != [] { FirstIsReceived(w[1..]); }
  }

  datatype BuildResult = Nothing | TooSmall | Built(len: nat)

  class Tracker {
    const entries: array<Entry>
    var started: bool
    var reportStart: nat
    var latest: nat
    var count: Byte

    ghost predicate Valid()
      reads this
    {
      entries.Length == RECV_CAPACITY && reportStart < SEQ_MOD && latest < SEQ_MOD
    }

    constructor ()
      ensures Valid() && !started && count == 0 && fresh(entries)
      ensures forall i | 0 <= i < RECV_CAPACITY :: entries[i] == Empty
    {
      entries := new Entry[RECV_CAPACITY](_ => Empty);
      started, reportStart, latest, count := false, 0, 0, 0;
    }

    /** Notes an arrival; a number less than half the circle ahead becomes the latest. */
    method Record(seqNo: nat, arrival: nat)
      requires Valid() && seqNo < SEQ_MOD
      modifies this`started, this`reportStart, this`latest, entries
      ensures Valid() && started && entries[..] == old(entries[..])[seqNo % RECV_CAPACITY := Held(seqNo, arrival)]
      ensures old(started) ==>
        && reportStart == old(reportStart)
        && latest == if 0 < (seqNo - old(latest)) % SEQ_MOD < 0x8000 then seqNo else old(latest)
      ensures !old(started) ==> reportStart == latest == seqNo
    {
      entries[seqNo % RECV_CAPACITY] := Held(seqNo, arrival);
      if !started {
        started, reportStart, latest := true, seqNo, seqNo;
        return;
      }
      var ahead := (seqNo - latest) % SEQ_MOD;
      if ahead > 0 && ahead < 0x8000 { latest := seqNo; }
    }

    predicate Pending()
      reads this
    {
      started && (latest - reportStart) % SEQ_MOD < 0x8000
    }

    /** How many packets the next feedback covers. */
    function WindowSize(): (n: nat)
      reads this
      ensures 0 < n <= MAX_PACKETS
    {
      var n := (latest - reportStart) % SEQ_MOD + 1;
      if n > MAX_PACKETS then MAX_PACKETS else n
    }

    method CollectWindow(base: nat, n: nat) returns (window: seq<Option<int>>, received: nat)
      requires Valid()
      ensures window == Window(entries[..], base, n)
      ensures received == 0 <==> forall i | 0 <= i < n :: window[i].None?
    {
      window, received := [], 0;
      for i := 0 to n
        invariant |window| == i && forall j | 0 <= j < i :: window[j] == Arrival(entries[..], (base + j) % SEQ_MOD)
        invariant received == 0 ==> forall j | 0 <= j < i :: window[j].None?
        invariant received > 0 ==> exists j :: 0 <= j < i && window[j].Some?
      {
        var seqNo := (base + i) % SEQ_MOD;
        var e := entries[seqNo % RECV_CAPACITY];
        ghost var before := window;
        if e.Held? && e.seqNo == seqNo {
          window, received := window + [Some(e.arrival)], received + 1;
          assert window[i].Some?;
        } else {
          window := window + [None];
        }
        assert forall j | 0 <= j < i :: window[j] == before[j];
      }
    }

    method FirstOf(window: seq<Option<int>>) returns (first: int)
      ensures first == FirstArrival(window)
    {
      first := 0;
      assert window[0..] == window;
      for i := 0 to |window|
        invariant FirstArrival(window[i..]) == FirstArrival(window)
      {
        assert window[i..][1..] == window[i + 1..];
        if window[i].Some? { return window[i].value; }
      }
      assert window[|window|..] == [];
    }

    /** Builds the feedback for the next window.  Nothing is built exactly when nothing is pending
        or no packet of the window was received, which skips the window; the buffer is too small
        exactly when the packet is longer, which leaves everything as it was. */
    method Build(sources: seq<Byte>, buffer: array<Byte>) returns (result: BuildResult)
      requires Valid() && |sources| == 8
      modifies this`reportStart, this`count, buffer
      ensures Valid()
      ensures result.Built? || (buffer[..] == old(buffer[..]) && count == old(count))
      ensures var w := Window(old(entries[..]), old(reportStart), old(WindowSize()));
        && (result.Nothing? <==> old(!Pending()) || forall i | 0 <= i < |w| :: w[i].None?)
        && FirstArrival(w) >= 0
        && var packet := FeedbackFor(sources, old(reportStart), w, old(count));
        && (!result.Nothing? ==> (result.TooSmall? <==> |packet| > buffer.Length))
        && (result.Built? ==> result == Built(|packet|) && buffer[..] == packet + old(buffer[..])[|packet|..])
        && (result.Built? ==> count == (old(count) as nat + 1) % 256)
        && reportStart ==
             if result.TooSmall? || old(!Pending()) then old(reportStart) else (old(reportStart) + |w|) % SEQ_MOD
    {
      hide Feedback, Reports, Window, Chunks;
      FirstIsReceived(Window(entries[..], reportStart, WindowSize()));
      if !Pending() { return Nothing; }
      var base := reportStart;
      var n := WindowSize();
      var window, received := CollectWindow(base, n);
      FirstIsReceived(window);
      if received == 0 {
        reportStart := (base + n) % SEQ_MOD;
        return Nothing;
      }
      var first := FirstOf(window);
      var reports := ComputeReports(window, first / REF_UNIT_US * REF_UNIT_US);
      var packet := Packet(sources, base, reports, first / REF_UNIT_US % 0x100_0000, count);
      if |packet| > buffer.Length { return TooSmall; }
      CopyTo(buffer, 0, packet);
      reportStart := (base + n) % SEQ_MOD;
      count := (count as nat + 1) % 256;
      result := Built(|packet|);
    }
  }

  /** Puts the packet together: chunks, differences, header, padding. */
  method Packet(sources: seq<Byte>, base: nat, reports: seq<Report>, quant: nat, count: Byte)
    returns (packet: seq<Byte>)
    requires reports != []
    ensures packet == Feedback(sources, base, reports, quant, count)
  {
    hide Chunks, DeltaBytes, ChunkBytes, Header;
    var chunks := ComputeChunks(Statuses(reports));
    var chunkBytes := ComputeChunkBytes(chunks);
    var deltas := ComputeDeltas(reports);
    var total := FIXED + |chunkBytes| + |deltas|;
    var pad := (4 - total % 4) % 4;
    var words := (total + pad) / 4 - 1;
    var header := Header(pad > 0, words, sources, base, |reports|, quant, count);
    packet := header + (chunkBytes + deltas) + PaddingBytes(pad);
  }

  // ---------------------------------------------------------------------------- parser

  /** The words from an offset on. */
  lemma WordsStep(data: seq<Byte>, offset: nat)
    requires offset <= |data|
    ensures WordsOf(data[offset..]) ==
      if offset + 2 > |data| then [] else [Field(data, offset)] + WordsOf(data[offset + 2..])
  {
    if offset + 2 <= |data| { assert data[offset..][2..] == data[offset + 2..]; }
  }

  /** The first pass over the chunks. */
  method ValidateChunks(data: seq<Byte>, count: nat) returns (deltas: Option<nat>)
    requires FIXED <= |data|
    ensures var v := Validate(WordsOf(data[FIXED..]), 0, count);
      deltas == if v.None? then None else Some(FIXED + 2 * v.value)
  {
    hide SymbolCount, WordsOf, Field;
    var offset: nat, processed: nat := FIXED, 0;
    ghost var seen: nat := 0;
    while processed < count
      invariant FIXED <= offset <= |data| && offset == FIXED + 2 * seen
      invariant var all, rest := Validate(WordsOf(data[FIXED..]), 0, count),
          Validate(WordsOf(data[offset..]), processed, count);
        all == if rest.None? then None else Some(seen + rest.value)
      decreases |data| - offset
    {
      WordsStep(data, offset);
      if offset + 2 > |data| { return None; }
      var chunk := Field(data, offset);
      ghost var rest := WordsOf(data[offset..]);
      assert rest[0] == chunk && rest[1..] == WordsOf(data[offset + 2..]);
      offset := offset + 2;
      var n := SymbolCount(chunk);
      if chunk < 0x8000 && (chunk / 0x2000 % 4 == 3 || n == 0) { return None; }
      if processed > Room(count, n) { return None; }
      processed := processed + n;
      seen := seen + 1;
    }
    deltas := Some(offset);
  }

  class FeedbackParser {
    const data: seq<Byte>
    var count: nat
    var time: int
    var seqNo: nat
    var chunkOffset: nat
    var deltaOffset: nat
    var chunk: nat
    var left: nat
    var processed: nat
    var failed: bool

    ghost function State(): Parser
      reads this
    {
      Parser(count, time, seqNo, chunkOffset, deltaOffset, chunk, left, processed, failed)
    }

    constructor (data: seq<Byte>)
      ensures this.data == data
    {
      this.data := data;
    }

    method Start(anchor: int) returns (ok: bool)
      modifies this
      ensures ok == Init(data, anchor).Some? && (ok ==> State() == Init(data, anchor).value)
    {
      hide Validate, WordsOf;
      if |data| < FIXED { return false; }
      var n := Field(data, 14);
      var deltas := ValidateChunks(data, n);
      if deltas.None? { return false; }
      var quant := data[16] as nat * 65536 + data[17] as nat * 256 + data[18] as nat;
      time := Unwrap(quant, anchor);
      count, seqNo, chunkOffset, deltaOffset := n, Field(data, 12), FIXED, deltas.value;
      chunk, left, processed, failed := 0, 0, 0, false;
      ok := true;
    }

    method NextChunkSymbol() returns (symbol: nat)
      modifies this`chunk, this`chunkOffset, this`left
      ensures (State(), symbol) == NextSymbol(data, old(State()))
    {
      hide SymbolAt, SymbolCount, Field;
      if left == 0 {
        if chunkOffset + 2 > deltaOffset || chunkOffset + 2 > |data| { return 3; }
        chunk := Field(data, chunkOffset);
        chunkOffset := chunkOffset + 2;
        left := SymbolCount(chunk);
        if left == 0 { return 3; }
      }
      left := left - 1;
      symbol := SymbolAt(chunk, left);
    }

    method NextStatus() returns (out: Option<Out>)
      modifies this
      ensures (State(), out) == Next(data, old(State()))
    {
      hide NextSymbol, Signed, Field;
      if failed || processed >= count { return None; }
      var symbol := NextChunkSymbol();
      var current := seqNo;
      seqNo := (seqNo + 1) % 65536;
      processed := processed + 1;
      if symbol == 0 { return Some(Out(current, 0, 0)); }
      if symbol == 3 {
        failed := true;
        return None;
      }
      var size := if symbol == 1 then 1 else 2;
      if deltaOffset + size > |data| {
        failed := true;
        return None;
      }
      var delta := if symbol == 1 then data[deltaOffset] as int else Signed(Field(data, deltaOffset));
      deltaOffset := deltaOffset + size;
      time := time + delta * UNIT_US;
      out := Some(Out(current, symbol, time));
    }
  }

  // ------------------------------------------------------------ feedback that is refused

  /** Two packets with six lost ones between them. */
  function SplitWindow(): seq<Option<int>> { [Some(0), None, None, None, None, None, None, Some(0)] }

  lemma SplitWindowIsMixed()
    ensures FirstArrival(SplitWindow()) == 0 && !Accepted(Statuses(Reports(SplitWindow(), 0)))
  {
    var w := SplitWindow();
    LostIsLost(w, 0, 0);
    LostIsLost(w, 0, 1);
    var statuses := Statuses(Reports(w, 0));
    assert statuses[0] != statuses[1];
  }

  lemma {:induction false} DeltasAreShort(reports: seq<Report>)
    ensures |DeltaBytes(reports)| <= 2 * |reports|
  {
    if reports != [] { DeltasAreShort(reports[1..]); }
  }

  lemma SplitWindowIsShort(sources: seq<Byte>, base: nat)
    requires |sources| == 8
    ensures FirstArrival(SplitWindow()) == 0 && |FeedbackFor(sources, base, SplitWindow(), 0)| <= 48
  {
    hide DeltaBytes, Chunks, Reports;
    SplitWindowIsMixed();
    var reports := Reports(SplitWindow(), 0);
    DeltasAreShort(reports);
    EightMixed(Statuses(reports));
  }

  lemma EightMixed(statuses: seq<Status>)
    requires |statuses| == 8 && !Accepted(statuses)
    ensures |Chunks(statuses)| == 2
  {
    VectorsReadBack(statuses, 0);
  }

  /** The refusal is real: a tracker that saw the numbers 0 and 7 builds feedback that the parser
      refuses. */
  method RefusesOwnFeedback(sources: seq<Byte>, buffer: array<Byte>, anchor: int) returns (built: bool, accepted: bool)
    requires |sources| == 8 && buffer.Length >= 48
    modifies buffer
    ensures built && !accepted
  {
    hide Window, Reports, FeedbackFor, Init, Accepted;
    var t := new Tracker();
    t.Record(0, 0);
    t.Record(7, 0);
    ghost var w := Window(t.entries[..], 0, 8);
    assert w == SplitWindow();
    SplitWindowIsMixed();
    SplitWindowIsShort(sources, 0);
    assert w[0].Some?;
    var result := t.Build(sources, buffer);
    built := result.Built?;
    var p := new FeedbackParser(buffer[..result.len]);
    OtherFeedbackIsRefused(sources, 0, w, 0, anchor);
    assert buffer[..result.len] == FeedbackFor(sources, 0, w, 0);
    accepted := p.Start(anchor);
  }
}

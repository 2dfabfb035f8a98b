/**
 Building a feedback packet and parsing it: every sequence number and every received or lost
 mark comes back exactly, every arrival time within 125 microseconds.
 */
module TwccRoundTrip {
  import opened Wrappers
  import opened Bytes
  import opened TwccTiming
  import opened TwccWire

  // --------------------------------------------------------------------------- building

  function Statuses(reports: seq<Report>): (s: seq<Status>)
    ensures |s| == |reports| && forall i | 0 <= i < |reports| :: s[i] == reports[i].status
  {
    if reports == [] then [] else [reports[0].status] + Statuses(reports[1..])
  }

  function ChunkBytes(chunks: seq<nat>): (b: seq<Byte>)
    ensures |b| == 2 * |chunks|
  {
    if chunks == [] then [] else Halves(chunks[0]) + ChunkBytes(chunks[1..])
  }

  /** One byte for a small difference, two in two's complement for a large one. */
  function DeltaOf(r: Report): seq<Byte> {
    match r.status
    case Lost => []
    case Small => [(r.units % 256) as nat]
    case Large => Halves((r.units % 65536) as nat)
  }

  function DeltaBytes(reports: seq<Report>): seq<Byte> {
    if reports == [] then [] else DeltaOf(reports[0]) + DeltaBytes(reports[1..])
  }

  function Padding(n: nat): nat { (4 - n % 4) % 4 }

  function PaddingBytes(n: nat): seq<Byte>
    requires n < 4
  {
    if n == 0 then [] else seq(n - 1, _ => 0) + [n]
  }

  /** The fixed part: kind of packet, length, sources, first number, window, reference, count. */
  function Header(padded: bool, words: nat, sources: seq<Byte>, base: nat, window: nat, quant: nat,
                  count: Byte): seq<Byte> {
    [if padded then 0xAF else 0x8F, 205] + Halves(words) + sources + Halves(base) + Halves(window)
    + [quant / 65536 % 256, quant / 256 % 256, quant % 256, count]
  }

  function Body(reports: seq<Report>): seq<Byte> { ChunkBytes(Chunks(Statuses(reports))) + DeltaBytes(reports) }

  function Feedback(sources: seq<Byte>, base: nat, reports: seq<Report>, quant: nat, count: Byte): seq<Byte> {
    var body := Body(reports);
    var pad := Padding(FIXED + |body|);
    Header(pad > 0, (FIXED + |body| + pad) / 4 - 1, sources, base, |reports|, quant, count) + body + PaddingBytes(pad)
  }

  // ---------------------------------------------------------------------------- parsing

  function WordsOf(bytes: seq<Byte>): seq<nat> {
    if |bytes| < 2 then [] else [Word(bytes[0], bytes[1])] + WordsOf(bytes[2..])
  }

  datatype Parser = Parser(count: nat, time: int, seqNo: nat, chunkOffset: nat, deltaOffset: nat, chunk: nat,
                           left: nat, processed: nat, failed: bool)

  datatype Out = Out(seqNo: nat, status: nat, time: int)

  function Init(data: seq<Byte>, anchor: int): Option<Parser> {
    if |data| < FIXED then None
    else
      var count := Field(data, 14);
      var chunks := Validate(WordsOf(data[FIXED..]), 0, count);
      if chunks.None? then None
      else
        var quant := data[16] as nat * 65536 + data[17] as nat * 256 + data[18] as nat;
        Some(Parser(count, Unwrap(quant, anchor), Field(data, 12), FIXED, FIXED + 2 * chunks.value, 0, 0, 0, false))
  }

  /** The next status symbol; 3 when there is none to be had. */
  function NextSymbol(data: seq<Byte>, p: Parser): (Parser, nat) {
    if p.left > 0 then (p.(left := p.left - 1), SymbolAt(p.chunk, p.left - 1))
    else if p.chunkOffset + 2 > p.deltaOffset || p.chunkOffset + 2 > |data| then (p, 3)
    else
      var chunk := Field(data, p.chunkOffset);
      var n := SymbolCount(chunk);
      var loaded := p.(chunk := chunk, chunkOffset := p.chunkOffset + 2);
      if n == 0 then (loaded, 3) else (loaded.(left := n - 1), SymbolAt(chunk, n - 1))
  }

  function Signed(w: nat): int { if w >= 32768 then w as int - 65536 else w }

  function Next(data: seq<Byte>, p: Parser): (Parser, Option<Out>) {
    if p.failed || p.processed >= p.count then (p, None)
    else
      var (q, symbol) := NextSymbol(data, p);
      var r := q.(seqNo := (q.seqNo + 1) % 65536, processed := q.processed + 1);
      if symbol == 0 then (r, Some(Out(q.seqNo, 0, 0)))
      else if symbol == 3 || r.deltaOffset + (if symbol == 1 then 1 else 2) > |data| then (r.(failed := true), None)
      else
        var delta := if symbol == 1 then data[r.deltaOffset] as int else Signed(Field(data, r.deltaOffset));
        var time := r.time + delta * UNIT_US;
        (r.(time := time, deltaOffset := r.deltaOffset + (if symbol == 1 then 1 else 2)),
         Some(Out(q.seqNo, symbol, time)))
  }

  /** Everything a parser yields. */
  function ParseAll(data: seq<Byte>, p: Parser): seq<Out>
    decreases p.count - p.processed
  {
    var (q, out) := Next(data, p);
    if out.None? || q.processed <= p.processed || q.count != p.count then [] else [out.value] + ParseAll(data, q)
  }

  // ----------------------------------------------------------------------- reading back

  lemma {:induction false} WordsReadBack(chunks: seq<nat>, more: seq<Byte>)
    requires forall i | 0 <= i < |chunks| :: chunks[i] < WORD
    ensures WordsOf(ChunkBytes(chunks) + more) == chunks + WordsOf(more)
  {
    hide Halves;
    if chunks == [] {
      assert ChunkBytes(chunks) + more == more;
    } else {
      var all := ChunkBytes(chunks) + more;
      HalvesIs(chunks[0]);
      assert all[2..] == ChunkBytes(chunks[1..]) + more;
      assert all[0] == Halves(chunks[0])[0] && all[1] == Halves(chunks[0])[1];
      WordsReadBack(chunks[1..], more);
      assert chunks + WordsOf(more) == [chunks[0]] + (chunks[1..] + WordsOf(more));
    }
  }

  /** A word of the list, read from its place. */
  lemma {:induction false} ChunkField(chunks: seq<nat>, j: nat)
    requires j < |chunks| && chunks[j] < WORD
    ensures Field(ChunkBytes(chunks), 2 * j) == chunks[j]
  {
    if j == 0 {
      HalvesIs(chunks[0]);
    } else {
      ChunkField(chunks[1..], j - 1);
      assert ChunkBytes(chunks)[2..] == ChunkBytes(chunks[1..]);
    }
  }

  lemma {:induction false} DeltaPlace(reports: seq<Report>, i: nat)
    requires i < |reports|
    ensures var at := |DeltaBytes(reports[..i])|;
      && DeltaBytes(reports) == DeltaBytes(reports[..i]) + DeltaOf(reports[i]) + DeltaBytes(reports[i + 1..])
      && |DeltaBytes(reports[..i + 1])| == at + |DeltaOf(reports[i])|
  {
    if i == 0 {
      assert reports[..0] == [] && reports[..1] == [reports[0]];
      assert DeltaBytes([reports[0]]) == DeltaOf(reports[0]) by { assert [reports[0]][1..] == []; }
    } else {
      DeltaPlace(reports[1..], i - 1);
      assert reports[..i][1..] == reports[1..][..i - 1] && reports[..i + 1][1..] == reports[1..][..i];
      assert reports[1..][i..] == reports[i + 1..];
    }
  }

  /** Units as they should be for their status. */
  predicate Fitting(r: Report) {
    match r.status case Lost => r.units == 0 case Small => 0 <= r.units <= 255 case Large => -32768 <= r.units <= 32767
  }

  lemma LargeReadsBack(u: int)
    requires -32768 <= u <= 32767
    ensures Signed(Word(Halves((u % 65536) as nat)[0], Halves((u % 65536) as nat)[1])) == u
  {
    HalvesIs((u % 65536) as nat);
  }

  /** The difference of a report, read from its place in the packet. */
  lemma DeltaReadsBack(data: seq<Byte>, reports: seq<Report>, at: nat, i: nat)
    requires i < |reports| && Fitting(reports[i]) && at + |DeltaBytes(reports)| <= |data|
    requires data[at..at + |DeltaBytes(reports)|] == DeltaBytes(reports)
    ensures var place := at + |DeltaBytes(reports[..i])|;
      match reports[i].status
      case Lost => true
      case Small => place + 1 <= |data| && data[place] as int == reports[i].units
      case Large => place + 2 <= |data| && Signed(Field(data, place)) == reports[i].units
  {
    hide DeltaBytes;
    DeltaPlace(reports, i);
    var d, k := DeltaBytes(reports), |DeltaBytes(reports[..i])|;
    assert forall j | 0 <= j < |d| :: data[at + j] == d[j];
    if reports[i].status == Small {
      assert d[k] == DeltaOf(reports[i])[0];
    } else if reports[i].status == Large {
      LargeReadsBack(reports[i].units);
      assert d[k] == DeltaOf(reports[i])[0] && d[k + 1] == DeltaOf(reports[i])[1];
    }
  }

  // ------------------------------------------------------------------ the parser's path

  /** A packet that holds these chunks and these deltas, and chunks that say what the reports say. */
  ghost predicate Laid(data: seq<Byte>, chunks: seq<nat>, reports: seq<Report>) {
    && FIXED + 2 * |chunks| + |DeltaBytes(reports)| <= |data|
    && data[FIXED..FIXED + 2 * |chunks|] == ChunkBytes(chunks)
    && data[FIXED + 2 * |chunks|..FIXED + 2 * |chunks| + |DeltaBytes(reports)|] == DeltaBytes(reports)
    && (forall j | 0 <= j < |chunks| :: chunks[j] < WORD && SymbolCount(chunks[j]) > 0)
    && |Symbols(chunks)| >= |reports|
    && (forall i | 0 <= i < |reports| :: Symbols(chunks)[i] == Code(reports[i].status) && Fitting(reports[i]))
  }

  /** The symbols still to come: the rest of the loaded chunk and the chunks from `j` on. */
  ghost predicate Ahead(chunks: seq<nat>, p: Parser, i: nat, j: nat) {
    && j <= |chunks| && p.chunkOffset == FIXED + 2 * j && i <= |Symbols(chunks)|
    && LastSymbols(p.chunk, p.left) + Symbols(chunks[j..]) == Symbols(chunks)[i..]
  }

  /** The next chunk, read from the packet. */
  lemma ChunkAt(data: seq<Byte>, chunks: seq<nat>, reports: seq<Report>, j: nat)
    requires Laid(data, chunks, reports) && j < |chunks|
    ensures FIXED + 2 * j + 2 <= |data| && Field(data, FIXED + 2 * j) == chunks[j] && SymbolCount(chunks[j]) > 0
  {
    hide Symbols, SymbolCount, DeltaBytes;
    ChunkField(chunks, j);
    SliceField(data, FIXED, FIXED + 2 * |chunks|, 2 * j);
  }

  lemma LoadedStep(chunks: seq<nat>, p: Parser, i: nat, j: nat)
    requires Ahead(chunks, p, i, j) && i < |Symbols(chunks)| && p.left > 0
    ensures SymbolAt(p.chunk, p.left - 1) == Symbols(chunks)[i] && Ahead(chunks, p.(left := p.left - 1), i + 1, j)
  {
    hide SymbolAt, Symbols;
    var all, rest := Symbols(chunks), Symbols(chunks[j..]);
    assert all[i..][1..] == all[i + 1..] && all[i..][0] == all[i];
    assert (LastSymbols(p.chunk, p.left) + rest)[1..] == LastSymbols(p.chunk, p.left - 1) + rest;
  }

  /** Loading a chunk leaves the symbols to come as they were. */
  lemma LoadStep(chunks: seq<nat>, p: Parser, i: nat, j: nat)
    requires Ahead(chunks, p, i, j) && i < |Symbols(chunks)| && p.left == 0
    ensures j < |chunks|
    ensures Ahead(chunks, p.(chunk := chunks[j], left := SymbolCount(chunks[j]), chunkOffset := p.chunkOffset + 2),
                  i, j + 1)
  {
    hide SymbolAt, SymbolCount;
    assert LastSymbols(p.chunk, 0) + Symbols(chunks[j..]) == Symbols(chunks[j..]);
    assert chunks[j..] != [];
    assert chunks[j..][0] == chunks[j] && chunks[j..][1..] == chunks[j + 1..];
  }

  lemma SymbolStep(data: seq<Byte>, chunks: seq<nat>, reports: seq<Report>, p: Parser, i: nat, j: nat) returns (j': nat)
    requires Laid(data, chunks, reports) && Ahead(chunks, p, i, j) && i < |Symbols(chunks)|
    requires p.deltaOffset >= FIXED + 2 * |chunks|
    ensures var (q, symbol) := NextSymbol(data, p);
      && symbol == Symbols(chunks)[i] && Ahead(chunks, q, i + 1, j')
      && q == p.(chunk := q.chunk, left := q.left, chunkOffset := q.chunkOffset)
  {
    hide SymbolAt, SymbolCount, Symbols, Laid, Field;
    if p.left > 0 {
      j' := j;
      LoadedStep(chunks, p, i, j);
    } else {
      j' := j + 1;
      LoadStep(chunks, p, i, j);
      ChunkAt(data, chunks, reports, j);
      assert p.chunkOffset == FIXED + 2 * j;
      LoadedStep(chunks, p.(chunk := chunks[j], left := SymbolCount(chunks[j]), chunkOffset := p.chunkOffset + 2), i,
                 j + 1);
    }
  }

  /** The parser after `i` packets. */
  ghost predicate AtStep(chunks: seq<nat>, reports: seq<Report>, p: Parser, i: nat, j: nat, base: nat, clock: int) {
    && p.count == |reports| && p.processed == i <= |reports| && !p.failed && p.seqNo == (base + i) % 65536
    && p.time == clock
    && p.deltaOffset == FIXED + 2 * |chunks| + |DeltaBytes(reports[..i])| && Ahead(chunks, p, i, j)
  }

  function Advanced(r: Report, clock: int): int { if r.status == Lost then clock else clock + r.units * UNIT_US }

  function Expected(r: Report, base: nat, i: nat, clock: int): Out {
    Out((base + i) % 65536, Code(r.status), if r.status == Lost then 0 else Advanced(r, clock))
  }

  lemma ParserStep(data: seq<Byte>, chunks: seq<nat>, reports: seq<Report>, p: Parser, i: nat, j: nat, base: nat,
                   clock: int) returns (j': nat)
    requires Laid(data, chunks, reports) && AtStep(chunks, reports, p, i, j, base, clock) && i < |reports|
    ensures var (q, out) := Next(data, p);
      && out == Some(Expected(reports[i], base, i, clock))
      && AtStep(chunks, reports, q, i + 1, j', base, Advanced(reports[i], clock))
  {
    hide NextSymbol, DeltaBytes, Symbols, Signed, Field, Ahead;
    j' := SymbolStep(data, chunks, reports, p, i, j);
    var (q, symbol) := NextSymbol(data, p);
    AheadIgnores(chunks, q, i + 1, j');
    DeltaReadsBack(data, reports, FIXED + 2 * |chunks|, i);
    DeltaPlace(reports, i);
    SeqStep(base, i);
  }

  lemma AheadIgnores(chunks: seq<nat>, q: Parser, i: nat, j: nat)
    requires Ahead(chunks, q, i, j)
    ensures forall s, n, t, d ::
      && Ahead(chunks, q.(seqNo := s, processed := n, time := t, deltaOffset := d), i, j)
      && Ahead(chunks, q.(seqNo := s, processed := n), i, j)
  {
  }

  lemma SeqStep(base: nat, i: nat)
    ensures ((base + i) % 65536 + 1) % 65536 == (base + (i + 1)) % 65536
  {
  }

  /** The parser yields the reports from `i` on, one after the other. */
  lemma {:induction false} ParserYields(data: seq<Byte>, chunks: seq<nat>, reports: seq<Report>, p: Parser, i: nat,
                                        j: nat, base: nat, clock: int, k: nat)
    requires Laid(data, chunks, reports) && AtStep(chunks, reports, p, i, j, base, clock)
    ensures |ParseAll(data, p)| == |reports| - i
    ensures k < |reports| - i ==>
      var out, time := ParseAll(data, p)[k], Replay(reports[i..], clock)[k];
      && out.seqNo == (base + i + k) % 65536 && out.status == Code(reports[i + k].status)
      && (time.Some? ==> out.time == time.value)
    decreases |reports| - i
  {
    hide Laid, Next, ParseAll, Ahead, DeltaBytes;
    if i == |reports| {
      NextEnds(data, p);
    } else {
      var j' := ParserStep(data, chunks, reports, p, i, j, base, clock);
      var q := Next(data, p).0;
      ParseOne(data, p);
      ParserYields(data, chunks, reports, q, i + 1, j', base, Advanced(reports[i], clock), if k == 0 then 0 else k - 1);
      ReplayOne(reports, i, clock);
    }
  }

  lemma ParseOne(data: seq<Byte>, p: Parser)
    requires var (q, out) := Next(data, p); out.Some? && q.processed == p.processed + 1 && q.count == p.count
    ensures ParseAll(data, p) == [Next(data, p).1.value] + ParseAll(data, Next(data, p).0)
  {
    hide Next;
  }

  lemma ReplayOne(reports: seq<Report>, i: nat, clock: int)
    requires i < |reports|
    ensures Replay(reports[i..], clock) ==
      [if reports[i].status == Lost then None else Some(Advanced(reports[i], clock))]
      + Replay(reports[i + 1..], Advanced(reports[i], clock))
  {
    assert reports[i..][1..] == reports[i + 1..];
  }

  lemma NextEnds(data: seq<Byte>, p: Parser)
    requires p.processed >= p.count
    ensures Next(data, p) == (p, None) && ParseAll(data, p) == []
  {
  }

  // -------------------------------------------------------------------------- round trip

  /** The packet the builder sends for a window of arrivals. */
  function FeedbackFor(sources: seq<Byte>, base: nat, arrivals: seq<Option<int>>, count: Byte): seq<Byte>
    requires FirstArrival(arrivals) >= 0
  {
    var first: nat := FirstArrival(arrivals);
    Feedback(sources, base, Reports(arrivals, RefFloor(first)), RefQuant(first), count)
  }

  lemma HeaderFields(padded: bool, words: nat, sources: seq<Byte>, base: nat, window: nat, quant: nat, count: Byte)
    requires |sources| == 8 && base < WORD && window < WORD && quant < 0x100_0000
    ensures var h := Header(padded, words, sources, base, window, quant, count);
      && |h| == FIXED && Field(h, 12) == base && Field(h, 14) == window
      && h[16] as nat * 65536 + h[17] as nat * 256 + h[18] as nat == quant
  {
    HalvesIs(base);
    HalvesIs(window);
  }

  lemma {:induction false} ChunksFit(statuses: seq<Status>, j: nat)
    requires 0 < |statuses| <= MAX_PACKETS && j < |Chunks(statuses)|
    ensures Chunks(statuses)[j] < WORD && SymbolCount(Chunks(statuses)[j]) > 0
  {
    if Uniform(statuses) { RunReadsBack(statuses[0], |statuses|); } else { VectorsFit(statuses, j); }
  }

  lemma {:induction false} VectorsFit(statuses: seq<Status>, j: nat)
    requires j < |VectorChunks(statuses)|
    ensures VectorChunks(statuses)[j] < WORD && SymbolCount(VectorChunks(statuses)[j]) > 0
    decreases |statuses|
  {
    hide VectorChunk;
    var first := if |statuses| <= 7 then statuses else statuses[..7];
    VectorReadsBack(first);
    if j > 0 { VectorsFit(statuses[7..], j - 1); }
  }

  /** Where the body of a feedback packet is. */
  lemma FeedbackIsLaid(sources: seq<Byte>, base: nat, reports: seq<Report>, quant: nat, count: Byte)
    requires |sources| == 8 && base < WORD && 0 < |reports| <= MAX_PACKETS && quant < 0x100_0000
    requires forall i | 0 <= i < |reports| :: Fitting(reports[i])
    ensures var data := Feedback(sources, base, reports, quant, count); var chunks := Chunks(Statuses(reports));
      && Laid(data, chunks, reports) && |data| >= FIXED + 2 * |chunks| && Field(data, 12) == base
      && Field(data, 14) == |reports|
      && data[16] as nat * 65536 + data[17] as nat * 256 + data[18] as nat == quant
      && WordsOf(data[FIXED..]) == chunks + WordsOf(data[FIXED + 2 * |chunks|..])
  {
    hide Symbols, ChunkBytes, DeltaBytes, Chunks, WordsOf, Header, SymbolCount, Field, PaddingBytes, Statuses;
    var chunks, body := Chunks(Statuses(reports)), Body(reports);
    var pad := Padding(FIXED + |body|);
    var words := (FIXED + |body| + pad) / 4 - 1;
    var h := Header(pad > 0, words, sources, base, |reports|, quant, count);
    HeaderFields(pad > 0, words, sources, base, |reports|, quant, count);
    Slices(h, ChunkBytes(chunks), DeltaBytes(reports), PaddingBytes(pad));
    forall j | 0 <= j < |chunks|
      ensures chunks[j] < WORD && SymbolCount(chunks[j]) > 0
    {
      ChunksFit(Statuses(reports), j);
    }
    WordsReadBack(chunks, DeltaBytes(reports) + PaddingBytes(pad));
    ChunksReadBack(Statuses(reports), 0);
    forall i | 0 <= i < |reports|
      ensures Symbols(chunks)[i] == Code(reports[i].status)
    {
      ChunksReadBack(Statuses(reports), i);
    }
  }

  lemma Slices(h: seq<Byte>, c: seq<Byte>, d: seq<Byte>, x: seq<Byte>)
    requires |h| == FIXED
    ensures var data := h + (c + d) + x;
      && |data| == FIXED + |c| + |d| + |x| && (forall k | 0 <= k < FIXED :: data[k] == h[k])
      && Field(data, 12) == Field(h, 12) && Field(data, 14) == Field(h, 14)
      && data[FIXED..FIXED + |c|] == c && data[FIXED + |c|..FIXED + |c| + |d|] == d && data[FIXED + |c|..] == d + x
      && data[FIXED..] == c + (d + x)
  {
  }

  /** What the parser makes of a built feedback packet it accepts: the differences replayed from
      wherever it unwrapped the reference to. */
  lemma FeedbackParses(sources: seq<Byte>, base: nat, arrivals: seq<Option<int>>, count: Byte, anchor: int, k: nat)
    requires |sources| == 8 && base < WORD && 0 < |arrivals| <= MAX_PACKETS && FirstArrival(arrivals) >= 0
    requires Accepted(Statuses(Reports(arrivals, RefFloor(FirstArrival(arrivals)))))
    ensures Init(FeedbackFor(sources, base, arrivals, count), anchor).Some?
    ensures var data := FeedbackFor(sources, base, arrivals, count);
      var outs := ParseAll(data, Init(data, anchor).value);
      && |outs| == |arrivals|
      && (k < |arrivals| ==>
            var time := Replay(Reports(arrivals, RefFloor(FirstArrival(arrivals))),
                               Unwrap(RefQuant(FirstArrival(arrivals)), anchor))[k];
            && outs[k].seqNo == (base + k) % 65536 && (outs[k].status == 0 <==> arrivals[k].None?) && outs[k].status < 3
            && (time.Some? <==> arrivals[k].Some?) && (time.Some? ==> outs[k].time == time.value))
  {
    hide Laid, Symbols, ParseAll, Feedback, Chunks, Unwrap, RefQuant, RefFloor, Accepted, Validate, WordsOf, Field;
    var first: nat := FirstArrival(arrivals);
    var reports, clock := Reports(arrivals, RefFloor(first)), Unwrap(RefQuant(first), anchor);
    forall i | 0 <= i < |reports| ensures Fitting(reports[i]) { ReportsFit(arrivals, RefFloor(first), i); }
    QuantFits(first);
    FeedbackIsLaid(sources, base, reports, RefQuant(first), count);
    var data, chunks := FeedbackFor(sources, base, arrivals, count), Chunks(Statuses(reports));
    AcceptedExactly(Statuses(reports), WordsOf(data[FIXED + 2 * |chunks|..]));
    var p := Init(data, anchor).value;
    StartsAt(chunks, reports, p, base, clock);
    ParserYields(data, chunks, reports, p, 0, 0, base, clock, k);
    assert reports[0..] == reports;
    if k < |arrivals| {
      LostIsLost(arrivals, RefFloor(first), k);
      ReplayedIsReceived(reports, clock, k);
    }
  }

  lemma {:induction false} ReplayedIsReceived(reports: seq<Report>, clock: int, k: nat)
    requires k < |reports|
    ensures Replay(reports, clock)[k].Some? <==> reports[k].status != Lost
    decreases |reports|
  {
    if k > 0 {
      ReplayedIsReceived(reports[1..],
                         if reports[0].status == Lost then clock else clock + reports[0].units * UNIT_US, k - 1);
    }
  }

  ghost predicate Within(arrivals: seq<Option<int>>, outs: seq<Out>)
    requires |outs| == |arrivals|
  {
    forall k | 0 <= k < |arrivals| && arrivals[k].Some? :: -125 <= arrivals[k].value - outs[k].time <= 125
  }

  /** Parsing a built feedback packet.  It is accepted exactly for uniform statuses, at most seven
      packets or a multiple of seven.  Then there is one result per packet, with its number and its
      received or lost mark; and every arrival time comes back within 125 microseconds exactly when
      the reference was unambiguous and no difference lies outside what 16 bits can say. */
  lemma FeedbackRoundTrip(sources: seq<Byte>, base: nat, arrivals: seq<Option<int>>, count: Byte, anchor: int)
    requires |sources| == 8 && base < WORD && 0 < |arrivals| <= MAX_PACKETS && FirstArrival(arrivals) >= 0
    requires exists k :: 0 <= k < |arrivals| && arrivals[k].Some?
    ensures var data, clock := FeedbackFor(sources, base, arrivals, count), RefFloor(FirstArrival(arrivals));
      && (Init(data, anchor).Some? <==> Accepted(Statuses(Reports(arrivals, clock))))
      && (Init(data, anchor).Some? ==>
            var outs := ParseAll(data, Init(data, anchor).value);
            && |outs| == |arrivals|
            && (forall k | 0 <= k < |arrivals| ::
                  outs[k].seqNo == (base + k) % 65536 && (outs[k].status == 0 <==> arrivals[k].None?))
            && (Within(arrivals, outs) <==>
                  Unambiguous(FirstArrival(arrivals), anchor) && Representable(arrivals, clock)))
  {
    hide ParseAll, FeedbackFor, Unwrap, RefQuant, RefFloor, Accepted, Statuses, Reports, Replay, Representable,
        Unambiguous, Init;
    OtherFeedbackIsRefused(sources, base, arrivals, count, anchor);
    var first: nat := FirstArrival(arrivals);
    var reports, clock := Reports(arrivals, RefFloor(first)), RefFloor(first);
    if Accepted(Statuses(reports)) {
      FeedbackParses(sources, base, arrivals, count, anchor, 0);
      var data := FeedbackFor(sources, base, arrivals, count);
      var outs := ParseAll(data, Init(data, anchor).value);
      forall k | 0 <= k < |arrivals|
        ensures outs[k].seqNo == (base + k) % 65536 && (outs[k].status == 0 <==> arrivals[k].None?)
        ensures arrivals[k].Some? ==> Replay(reports, Unwrap(RefQuant(first), anchor))[k] == Some(outs[k].time)
      {
        FeedbackParses(sources, base, arrivals, count, anchor, k);
      }
      TimesIff(arrivals, outs, first, anchor);
    }
  }

  lemma TimesIff(arrivals: seq<Option<int>>, outs: seq<Out>, first: nat, anchor: int)
    requires |outs| == |arrivals| && first == FirstArrival(arrivals)
    requires exists k :: 0 <= k < |arrivals| && arrivals[k].Some?
    requires forall k | 0 <= k < |arrivals| && arrivals[k].Some? ::
      Replay(Reports(arrivals, RefFloor(first)), Unwrap(RefQuant(first), anchor))[k] == Some(outs[k].time)
    ensures Within(arrivals, outs) <==> Unambiguous(first, anchor) && Representable(arrivals, RefFloor(first))
  {
    hide Reports, Replay, Representable, Unwrap, RefQuant, RefFloor, Unambiguous;
    var clock, start := RefFloor(first), Unwrap(RefQuant(first), anchor);
    var reports := Reports(arrivals, clock);
    if !Unambiguous(first, anchor) {
      UnwrapIsFarOff(first, anchor);
      FloorIsNear(first);
      var i := FirstIsClose(arrivals, clock);
      ReplayShifts(reports, clock, start - clock, i);
      assert !(-125 <= arrivals[i].value - outs[i].time <= 125);
    } else {
      UnwrapIsExact(first, anchor);
      if Representable(arrivals, clock) {
        forall k | 0 <= k < |arrivals| && arrivals[k].Some?
          ensures -125 <= arrivals[k].value - outs[k].time <= 125
        {
          ReplayIsClose(arrivals, clock, k);
        }
      } else {
        var i := ReplayMisses(arrivals, clock);
        MissesReceived(arrivals, clock, i);
      }
    }
  }

  lemma FloorIsNear(first: nat)
    ensures 0 <= first - RefFloor(first) < REF_UNIT_US
  {
  }

  /** A lost packet is not among the missed times. */
  lemma MissesReceived(arrivals: seq<Option<int>>, clock: int, i: nat)
    requires i < |arrivals| && !Close(arrivals[i], Replay(Reports(arrivals, clock), clock)[i])
    ensures arrivals[i].Some?
  {
    LostIsLost(arrivals, clock, i);
    ReplayedIsReceived(Reports(arrivals, clock), clock, i);
  }

  lemma QuantFits(first: nat)
    ensures RefQuant(first) < 0x100_0000
  {
  }

  lemma StartsAt(chunks: seq<nat>, reports: seq<Report>, p: Parser, base: nat, clock: int)
    requires p == Parser(|reports|, clock, base, FIXED, FIXED + 2 * |chunks|, 0, 0, 0, false) && base < WORD
    ensures AtStep(chunks, reports, p, 0, 0, base, clock)
  {
    assert reports[..0] == [] && chunks[0..] == chunks && Symbols(chunks)[0..] == Symbols(chunks);
    assert LastSymbols(0, 0) + Symbols(chunks) == Symbols(chunks);
  }

  lemma {:induction false} LostIsLost(arrivals: seq<Option<int>>, clock: int, k: nat)
    requires k < |arrivals|
    ensures Reports(arrivals, clock)[k].status == Lost <==> arrivals[k].None?
    decreases |arrivals|
  {
    if k > 0 {
      var u := if arrivals[0].None? then 0 else Clamped(Units(arrivals[0].value - clock));
      assert Reports(arrivals, clock)[1..] == Reports(arrivals[1..], clock + u * UNIT_US);
      LostIsLost(arrivals[1..], clock + u * UNIT_US, k - 1);
    }
  }

  /** All other mixed windows are refused by the parser. */
  lemma OtherFeedbackIsRefused(sources: seq<Byte>, base: nat, arrivals: seq<Option<int>>, count: Byte, anchor: int)
    requires |sources| == 8 && base < WORD && 0 < |arrivals| <= MAX_PACKETS && FirstArrival(arrivals) >= 0
    ensures Init(FeedbackFor(sources, base, arrivals, count), anchor).Some? <==>
      Accepted(Statuses(Reports(arrivals, RefFloor(FirstArrival(arrivals)))))
  {
    hide Laid, Symbols, Feedback, Chunks, Unwrap, RefQuant, RefFloor, Accepted, Validate, WordsOf, Field, Reports,
        Statuses;
    var first: nat := FirstArrival(arrivals);
    var reports := Reports(arrivals, RefFloor(first));
    forall i | 0 <= i < |reports| ensures Fitting(reports[i]) { ReportsFit(arrivals, RefFloor(first), i); }
    QuantFits(first);
    FeedbackIsLaid(sources, base, reports, RefQuant(first), count);
    var data := FeedbackFor(sources, base, arrivals, count);
    AcceptedExactly(Statuses(reports), WordsOf(data[FIXED + 2 * |Chunks(Statuses(reports))|..]));
  }
}

/**
 The wire format of transport-wide feedback: status chunks and receive deltas as
 src/congestion/twcc_feedback.c writes them and src/congestion/twcc_parser.c reads them
 (section 3.1 of draft-holmer-rmcat-transport-wide-cc-extensions-01).
 */
module TwccWire {
  import opened Wrappers
  import opened Bytes
  import opened TwccTiming

  const FIXED: nat := 20
  const MAX_PACKETS: nat := 256

  function Code(s: Status): (c: nat)
    ensures c < 3
  {
    match s case Lost => 0 case Small => 1 case Large => 2
  }

  // -------------------------------------------------------------------- status chunks

  /** A 16-bit chunk as the list of symbols it stands for. */
  function SymbolCount(chunk: nat): nat
  {
    if chunk < 0x8000 then chunk % 0x2000 else if chunk / 0x4000 % 2 == 1 then 7 else 14
  }

  function ShiftedBy(x: nat, bits: nat): nat { if bits == 0 then x else ShiftedBy(x, bits - 1) / 2 }

  /** The symbol read when `left` symbols of the chunk remain after it. */
  function SymbolAt(chunk: nat, left: nat): nat {
    if chunk < 0x8000 then chunk / 0x2000 % 4
    else if chunk / 0x4000 % 2 == 1 then ShiftedBy(chunk, 2 * left) % 4
    else ShiftedBy(chunk, left) % 2
  }

  /** The last `n` symbols of a chunk. */
  function LastSymbols(chunk: nat, n: nat): (s: seq<nat>)
    ensures |s| == n
  {
    if n == 0 then [] else [SymbolAt(chunk, n - 1)] + LastSymbols(chunk, n - 1)
  }

  function Symbols(chunks: seq<nat>): seq<nat> {
    if chunks == [] then [] else LastSymbols(chunks[0], SymbolCount(chunks[0])) + Symbols(chunks[1..])
  }

  function RunChunk(s: Status, run: nat): nat { Code(s) * 0x2000 + run % 0x2000 }

  /** The code at a place, zero behind the end. */
  function CodeAt(statuses: seq<Status>, k: nat): (c: nat)
    ensures c < 3
  {
    if k < |statuses| then Code(statuses[k]) else 0
  }

  function VectorChunk(statuses: seq<Status>): nat {
    0xC000 + CodeAt(statuses, 0) * 4096 + CodeAt(statuses, 1) * 1024 + CodeAt(statuses, 2) * 256
    + CodeAt(statuses, 3) * 64 + CodeAt(statuses, 4) * 16 + CodeAt(statuses, 5) * 4 + CodeAt(statuses, 6)
  }

  predicate Uniform(statuses: seq<Status>) { forall i | 0 <= i < |statuses| :: statuses[i] == statuses[0] }

  function VectorChunks(statuses: seq<Status>): seq<nat> {
    if statuses == [] then []
    else if |statuses| <= 7 then [VectorChunk(statuses)]
    else [VectorChunk(statuses[..7])] + VectorChunks(statuses[7..])
  }

  function Chunks(statuses: seq<Status>): seq<nat> {
    if statuses == [] then []
    else if Uniform(statuses) then [RunChunk(statuses[0], |statuses|)] else VectorChunks(statuses)
  }

  lemma ShiftTwo(x: nat, bits: nat, y: nat, d: nat)
    requires ShiftedBy(x, bits) == 4 * y + d && d < 4
    ensures ShiftedBy(x, bits + 2) == y && ShiftedBy(x, bits) % 4 == d
  {
    assert ShiftedBy(x, bits + 2) == ShiftedBy(x, bits) / 2 / 2;
  }

  /** A vector chunk reads back symbol by symbol. */
  lemma VectorReadsBack(statuses: seq<Status>)
    requires |statuses| <= 7
    ensures var c := VectorChunk(statuses);
      && 0xC000 <= c < WORD && SymbolCount(c) == 7
      && LastSymbols(c, 7) ==
           [CodeAt(statuses, 0), CodeAt(statuses, 1), CodeAt(statuses, 2), CodeAt(statuses, 3), CodeAt(statuses, 4),
            CodeAt(statuses, 5), CodeAt(statuses, 6)]
  {
    hide CodeAt, LastSymbols, ShiftedBy;
    var c := VectorChunk(statuses);
    var y6 := 12 + CodeAt(statuses, 0);
    var y5 := 4 * y6 + CodeAt(statuses, 1);
    var y4 := 4 * y5 + CodeAt(statuses, 2);
    var y3 := 4 * y4 + CodeAt(statuses, 3);
    var y2 := 4 * y3 + CodeAt(statuses, 4);
    var y1 := 4 * y2 + CodeAt(statuses, 5);
    assert c == 4 * y1 + CodeAt(statuses, 6);
    assert ShiftedBy(c, 0) == c by { NoShift(c); }
    ShiftTwo(c, 0, y1, CodeAt(statuses, 6));
    ShiftTwo(c, 2, y2, CodeAt(statuses, 5));
    ShiftTwo(c, 4, y3, CodeAt(statuses, 4));
    ShiftTwo(c, 6, y4, CodeAt(statuses, 3));
    ShiftTwo(c, 8, y5, CodeAt(statuses, 2));
    ShiftTwo(c, 10, y6, CodeAt(statuses, 1));
    ShiftTwo(c, 12, 3, CodeAt(statuses, 0));
    SevenSymbols(c);
  }

  lemma NoShift(x: nat)
    ensures ShiftedBy(x, 0) == x
  {
  }

  lemma SevenSymbols(c: nat)
    ensures LastSymbols(c, 7) ==
      [SymbolAt(c, 6), SymbolAt(c, 5), SymbolAt(c, 4), SymbolAt(c, 3), SymbolAt(c, 2), SymbolAt(c, 1), SymbolAt(c, 0)]
  {
    hide SymbolAt;
    assert LastSymbols(c, 1) == [SymbolAt(c, 0)];
    assert LastSymbols(c, 2) == [SymbolAt(c, 1), SymbolAt(c, 0)];
    assert LastSymbols(c, 3) == [SymbolAt(c, 2), SymbolAt(c, 1), SymbolAt(c, 0)];
    assert LastSymbols(c, 4) == [SymbolAt(c, 3), SymbolAt(c, 2), SymbolAt(c, 1), SymbolAt(c, 0)];
    assert LastSymbols(c, 5) == [SymbolAt(c, 4), SymbolAt(c, 3), SymbolAt(c, 2), SymbolAt(c, 1), SymbolAt(c, 0)];
    assert LastSymbols(c, 6) == [SymbolAt(c, 5), SymbolAt(c, 4), SymbolAt(c, 3), SymbolAt(c, 2), SymbolAt(c, 1),
                                 SymbolAt(c, 0)];
  }

  lemma RunReadsBack(s: Status, run: nat)
    requires 0 < run < 0x2000
    ensures var c := RunChunk(s, run);
      c < 0x8000 && SymbolCount(c) == run && forall left: nat :: SymbolAt(c, left) == Code(s)
  {
  }

  lemma {:induction false} RunSymbols(c: nat, n: nat, i: nat)
    requires c < 0x8000 && i < n
    ensures LastSymbols(c, n)[i] == c / 0x2000 % 4
  {
    if i > 0 { RunSymbols(c, n - 1, i - 1); }
  }

  lemma {:induction false} VectorsReadBack(statuses: seq<Status>, i: nat)
    ensures |Symbols(VectorChunks(statuses))| == (|statuses| + 6) / 7 * 7
    ensures |VectorChunks(statuses)| == (|statuses| + 6) / 7
    ensures i < |Symbols(VectorChunks(statuses))| ==> Symbols(VectorChunks(statuses))[i] == CodeAt(statuses, i)
    decreases |statuses|
  {
    hide LastSymbols, VectorChunk, CodeAt;
    if statuses != [] {
      var first := if |statuses| <= 7 then statuses else statuses[..7];
      var chunks := VectorChunks(statuses);
      VectorReadsBack(first);
      if |statuses| <= 7 {
        assert chunks[1..] == [];
        assert Symbols(chunks) == LastSymbols(VectorChunk(first), 7);
      } else {
        assert chunks[1..] == VectorChunks(statuses[7..]);
        VectorsReadBack(statuses[7..], if i < 7 then 0 else i - 7);
        CodeMoves(statuses, i);
      }
    }
  }

  lemma CodeMoves(statuses: seq<Status>, i: nat)
    requires |statuses| > 7
    ensures CodeAt(statuses, i) == if i < 7 then CodeAt(statuses[..7], i) else CodeAt(statuses[7..], i - 7)
  {
  }

  /** The chunks read back every status. */
  lemma ChunksReadBack(statuses: seq<Status>, i: nat)
    requires 0 < |statuses| <= MAX_PACKETS && i < |statuses|
    ensures |Symbols(Chunks(statuses))| >= |statuses| && Symbols(Chunks(statuses))[i] == Code(statuses[i])
  {
    hide LastSymbols, VectorChunk;
    if Uniform(statuses) {
      var c := RunChunk(statuses[0], |statuses|);
      RunReadsBack(statuses[0], |statuses|);
      RunSymbols(c, |statuses|, i);
      assert Symbols([c]) == LastSymbols(c, |statuses|) by { assert [c][1..] == []; }
    } else {
      VectorsReadBack(statuses, i);
    }
  }

  // ------------------------------------------------------------------ chunk validation

  /** The 32-bit difference the source compares with. */
  function Room(count: nat, n: nat): nat { (count - n) % 0x1_0000_0000 }

  /** The parser's first pass over the chunks: where the deltas start. */
  function Validate(chunks: seq<nat>, processed: nat, count: nat): Option<nat>
    decreases |chunks|
  {
    if processed >= count then Some(0)
    else if chunks == [] then None
    else
      var c, n := chunks[0], SymbolCount(chunks[0]);
      if (c < 0x8000 && (c / 0x2000 % 4 == 3 || n == 0)) || processed > Room(count, n) then None
      else
        var rest := Validate(chunks[1..], processed + n, count);
        if rest.None? then None else Some(1 + rest.value)
  }

  /** A run of all packets is accepted. */
  lemma RunIsValid(s: Status, count: nat, more: seq<nat>)
    requires 0 < count <= MAX_PACKETS
    ensures Validate([RunChunk(s, count)] + more, 0, count) == Some(1)
  {
    var c := RunChunk(s, count);
    RunReadsBack(s, count);
    var all := [c] + more;
    assert all[1..] == more;
    assert Validate(more, count, count) == Some(0);
  }

  /** Vector chunks are accepted unless the last of several is padded. */
  lemma {:induction false} VectorsAreValid(statuses: seq<Status>, processed: nat, count: nat, more: seq<nat>)
    requires processed + |statuses| == count <= MAX_PACKETS && processed % 7 == 0
    ensures Validate(VectorChunks(statuses) + more, processed, count) ==
      if count % 7 == 0 || count <= 7 || statuses == [] then Some(|VectorChunks(statuses)|) else None
    decreases |statuses|
  {
    hide VectorChunk;
    var chunks := VectorChunks(statuses);
    if statuses != [] {
      var first := if |statuses| <= 7 then statuses else statuses[..7];
      VectorReadsBack(first);
      assert (chunks + more)[0] == VectorChunk(first);
      if |statuses| <= 7 {
        assert (chunks + more)[1..] == more;
        assert Validate(more, processed + 7, count) == Some(0);
      } else {
        assert (chunks + more)[1..] == VectorChunks(statuses[7..]) + more;
        VectorsAreValid(statuses[7..], processed + 7, count, more);
      }
    }
  }

  /** The statuses whose feedback the parser accepts. */
  predicate Accepted(statuses: seq<Status>) { Uniform(statuses) || |statuses| <= 7 || |statuses| % 7 == 0 }

  /** Feedback for mixed statuses is refused exactly when its last vector chunk of several is
      padded. */
  lemma AcceptedExactly(statuses: seq<Status>, more: seq<nat>)
    requires 0 < |statuses| <= MAX_PACKETS
    ensures Validate(Chunks(statuses) + more, 0, |statuses|) ==
      if Accepted(statuses) then Some(|Chunks(statuses)|) else None
  {
    if Uniform(statuses) {
      RunIsValid(statuses[0], |statuses|, more);
    } else {
      VectorsAreValid(statuses, 0, |statuses|, more);
    }
  }
}

/**
 The Internet checksum as src/net/af_xdp_frame.c computes it: a running 32-bit sum of
 big-endian 16-bit words that may be fed in pieces of any length, and a folding loop at the
 end (RFC 1071, section 1).
 */
module FrameChecksum {
  import opened Bytes

  const LONG: nat := 0x1_0000_0000

  /** The sum of the big-endian words of a byte string; an odd last byte is a high byte. */
  function WordSum(bytes: seq<Byte>): nat {
    if bytes == [] then 0
    else if |bytes| == 1 then Word(bytes[0], 0)
    else Word(bytes[0], bytes[1]) + WordSum(bytes[2..])
  }

  /** A running sum: full words so far, or these and the high byte of a word half there. */
  datatype Running = Whole(sum: nat) | Half(sum: nat, high: Byte)

  const START := Whole(0)

  /** Feeding one more byte. */
  function AddByte(s: Running, b: Byte): Running {
    match s
    case Whole(sum) => Half(sum, b)
    case Half(sum, high) => Whole((sum + Word(high, b)) % LONG)
  }

  function AddBytes(s: Running, bytes: seq<Byte>): Running
    decreases |bytes|
  {
    if bytes == [] then s else AddBytes(AddByte(s, bytes[0]), bytes[1..])
  }

  /** It does not matter how a byte string is cut into pieces. */
  lemma {:induction false} AddInPieces(s: Running, a: seq<Byte>, b: seq<Byte>)
    ensures AddBytes(AddBytes(s, a), b) == AddBytes(s, a + b)
    decreases |a|
  {
    if a == [] {
      assert a + b == b;
    } else {
      assert (a + b)[1..] == a[1..] + b;
      AddInPieces(AddByte(s, a[0]), a[1..], b);
    }
  }

  /** The value of a running sum if it were finished now. */
  function Value(s: Running): nat { if s.Half? then s.sum + Word(s.high, 0) else s.sum }

  lemma {:induction false} SumIsSmall(bytes: seq<Byte>)
    ensures WordSum(bytes) <= (|bytes| + 1) / 2 * 65535
  {
    if |bytes| >= 2 { SumIsSmall(bytes[2..]); }
  }

  /** Up to 131070 bytes the 32-bit sum does not wrap, whatever the pieces. */
  lemma {:induction false} RunningIsWordSum(s: Running, bytes: seq<Byte>)
    requires s.Whole? && s.sum + WordSum(bytes) < LONG
    ensures var r := AddBytes(s, bytes); Value(r) == s.sum + WordSum(bytes) && (r.Half? <==> |bytes| % 2 == 1)
    decreases |bytes|
  {
    if |bytes| == 1 {
      assert AddBytes(s, bytes) == AddBytes(AddByte(s, bytes[0]), bytes[1..]) == AddByte(s, bytes[0]);
    } else if |bytes| >= 2 {
      var one := AddByte(s, bytes[0]);
      var two := AddByte(one, bytes[1]);
      assert bytes[1..][1..] == bytes[2..];
      assert AddBytes(s, bytes) == AddBytes(one, bytes[1..]) == AddBytes(two, bytes[2..]);
      RunningIsWordSum(two, bytes[2..]);
    }
  }

  // ---------------------------------------------------------------------------- folding

  /** The one's-complement sum of the two halves, as often as it takes. */
  function Fold(x: nat): (r: nat)
    ensures r < WORD
    decreases x
  {
    if x / WORD == 0 then x else Fold(x % WORD + x / WORD)
  }

  /** The closed form: zero stays zero, anything else becomes its nonzero residue. */
  lemma {:induction false} FoldIs(x: nat)
    ensures Fold(x) == if x == 0 then 0 else 1 + (x - 1) % 65535
    decreases x
  {
    if x / WORD != 0 {
      var y := x % WORD + x / WORD;
      FoldIs(y);
      ResidueStep(x);
    }
  }

  lemma ResidueStep(x: nat)
    requires x >= WORD
    ensures var y := x % WORD + x / WORD; y > 0 && (x - 1) % 65535 == (y - 1) % 65535
  {
    var q, r := x / WORD, x % WORD;
    assert x == WORD * q + r;
    ModPlus(q + r - 1, q);
    assert x - 1 == 65535 * q + (q + r - 1);
  }

  lemma ModPlus(a: nat, q: nat)
    ensures (65535 * q + a) % 65535 == a % 65535
  {
  }

  /** The 16-bit complement of the folded sum. */
  function Finish(s: Running): (r: nat)
    ensures r < WORD
  {
    65535 - Fold(Value(s) % LONG)
  }

  function Checksum(bytes: seq<Byte>): (r: nat)
    ensures r < WORD
  {
    Finish(AddBytes(START, bytes))
  }

  lemma ChecksumIs(bytes: seq<Byte>)
    requires WordSum(bytes) < LONG
    ensures Checksum(bytes) == 65535 - Fold(WordSum(bytes))
  {
    hide AddBytes, Fold, WordSum;
    RunningIsWordSum(START, bytes);
  }

  /** A sum completed by its own checksum verifies, and so does one completed by 0xffff where
      the checksum came out as zero (RFC 768). */
  lemma SumVerifies(sum: nat)
    ensures var c := 65535 - Fold(sum); Fold(sum + c) == 65535 && (c == 0 ==> Fold(sum + 65535) == 65535)
  {
    FoldIs(sum);
    var c := 65535 - Fold(sum);
    FoldIs(sum + c);
    FoldIs(sum + 65535);
    if sum > 0 {
      var r := (sum - 1) % 65535;
      assert sum - 1 == 65535 * ((sum - 1) / 65535) + r;
      ModPlus(65534, (sum - 1) / 65535);
      assert sum + c - 1 == 65535 * ((sum - 1) / 65535) + 65534;
      if c == 0 {
        assert sum + 65535 - 1 == 65535 * ((sum - 1) / 65535) + 65534 + 65535;
        ModPlus(65534, (sum - 1) / 65535 + 1);
      }
    }
  }

  // -------------------------------------------------------------------------- splitting

  lemma {:induction false} WordSumConcat(a: seq<Byte>, b: seq<Byte>)
    requires |a| % 2 == 0
    ensures WordSum(a + b) == WordSum(a) + WordSum(b)
  {
    if a == [] {
      assert a + b == b;
    } else {
      assert (a + b)[2..] == a[2..] + b;
      WordSumConcat(a[2..], b);
    }
  }

  /** A word at an even place counts with its value. */
  lemma WordSumWith(a: seq<Byte>, hi: Byte, lo: Byte, b: seq<Byte>)
    requires |a| % 2 == 0
    ensures WordSum(a + [hi, lo] + b) == WordSum(a) + Word(hi, lo) + WordSum(b)
  {
    WordSumConcat(a + [hi, lo], b);
    WordSumConcat(a, [hi, lo]);
    assert WordSum([hi, lo]) == Word(hi, lo) by { assert [hi, lo][2..] == []; }
  }

  // --------------------------------------------------------------------------- the loops

  /** The source's running state. */
  class ChecksumState {
    var sum: nat
    var high: Byte
    var odd: bool

    ghost function State(): Running
      reads this
    {
      if odd then Half(sum, high) else Whole(sum)
    }

    constructor ()
      ensures State() == START
    {
      sum, high, odd := 0, 0, false;
    }

    /** Finishes a half word, then takes two bytes at a time, then keeps an odd last byte. */
    method Add(bytes: seq<Byte>)
      modifies this
      ensures State() == AddBytes(old(State()), bytes)
    {
      if |bytes| == 0 { return; }
      var i := 0;
      assert bytes[0..] == bytes;
      if odd {
        sum := (sum + Word(high, bytes[0])) % LONG;
        odd := false;
        i := 1;
      }
      while |bytes| - i >= 2
        invariant 0 <= i <= |bytes| && !odd
        invariant AddBytes(old(State()), bytes) == AddBytes(State(), bytes[i..])
      {
        PairIs(State(), bytes, i);
        sum := (sum + Word(bytes[i], bytes[i + 1])) % LONG;
        i := i + 2;
      }
      if i < |bytes| {
        assert bytes[i..][1..] == [];
        high, odd := bytes[i], true;
      }
    }

    lemma PairIs(s: Running, bytes: seq<Byte>, i: nat)
      requires i + 2 <= |bytes| && s.Whole?
      ensures AddBytes(s, bytes[i..]) == AddBytes(Whole((s.sum + Word(bytes[i], bytes[i + 1])) % LONG), bytes[i + 2..])
    {
      assert bytes[i..][1..] == bytes[i + 1..] && bytes[i + 1..][1..] == bytes[i + 2..];
    }

    /** Folds the sum into 16 bits and complements it. */
    method Done() returns (checksum: nat)
      requires sum < LONG
      modifies this`sum
      ensures checksum == Finish(old(State()))
    {
      if odd { sum := (sum + Word(high, 0)) % LONG; }
      assert sum == Value(old(State())) % LONG;
      ghost var start := sum;
      while sum / WORD != 0
        invariant Fold(sum) == Fold(start)
        decreases sum
      {
        sum := sum % WORD + sum / WORD;
      }
      checksum := 65535 - sum;
    }
  }

  /** The checksum of a byte string in one piece. */
  method ChecksumOf(bytes: seq<Byte>) returns (checksum: nat)
    ensures checksum == Checksum(bytes)
  {
    var state := new ChecksumState();
    state.Add(bytes);
    SumStaysSmall(START, bytes);
    checksum := state.Done();
  }

  lemma {:induction false} SumStaysSmall(s: Running, bytes: seq<Byte>)
    requires s.sum < LONG
    ensures AddBytes(s, bytes).sum < LONG
    decreases |bytes|
  {
    if bytes != [] { SumStaysSmall(AddByte(s, bytes[0]), bytes[1..]); }
  }
}

/** Byte strings in network order, and writing them into a buffer. */
module Bytes {
  type Byte = n: nat | n < 256

  const WORD: nat := 65536

  function Word(hi: Byte, lo: Byte): nat { hi as nat * 256 + lo as nat }

  /** The 16-bit field at a place, in network byte order. */
  function Field(frame: seq<Byte>, at: nat): nat
    requires at + 2 <= |frame|
  {
    Word(frame[at], frame[at + 1])
  }

  /** A number as two bytes in network order, cut to 16 bits. */
  function Halves(n: nat): (b: seq<Byte>)
    ensures |b| == 2
  {
    [n / 256 % 256, n % 256]
  }

  lemma HalvesIs(n: nat)
    requires n < WORD
    ensures Word(Halves(n)[0], Halves(n)[1]) == n
  {
  }

  lemma SliceField(frame: seq<Byte>, from: nat, to: nat, at: nat)
    requires from <= to <= |frame| && at + 2 <= to - from
    ensures Field(frame, from + at) == Field(frame[from..to], at)
  {
  }

  function Put(buffer: seq<Byte>, at: nat, bytes: seq<Byte>): (r: seq<Byte>)
    requires at + |bytes| <= |buffer|
    ensures |r| == |buffer|
  {
    buffer[..at] + bytes + buffer[at + |bytes|..]
  }

  /** Writing next to a finished beginning extends it and leaves the rest alone. */
  lemma PutNext(buffer: seq<Byte>, done: seq<Byte>, rest: seq<Byte>, bytes: seq<Byte>)
    requires |bytes| <= |rest| && buffer == done + rest
    ensures Put(buffer, |done|, bytes) == (done + bytes) + rest[|bytes|..]
  {
  }

  lemma PutLast(buffer: seq<Byte>, done: seq<Byte>, c: seq<Byte>, rest: seq<Byte>, c': seq<Byte>)
    requires buffer == done + c + rest && |c'| == |c|
    ensures Put(buffer, |done|, c') == done + c' + rest
  {
    hide Put;
    assert buffer == done + (c + rest);
    PutNext(buffer, done, c + rest, c');
    assert (c + rest)[|c'|..] == rest;
  }

  /** Copies bytes into a buffer. */
  method CopyTo(buffer: array<Byte>, at: nat, bytes: seq<Byte>)
    requires at + |bytes| <= buffer.Length
    modifies buffer
    ensures buffer[..] == Put(old(buffer[..]), at, bytes)
  {
    for i := 0 to |bytes|
      invariant forall j | 0 <= j < buffer.Length ::
        buffer[j] == if at <= j < at + i then bytes[j - at] else old(buffer[j])
    {
      buffer[at + i] := bytes[i];
    }
  }
}

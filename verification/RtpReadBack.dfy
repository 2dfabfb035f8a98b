/**
 When a written header-extension value can be read back (src/rtp/rtp_ext.c).  A write reports
 success whatever else the extension block holds; here is exactly on which blocks its value reads
 back, and packets on which it does not.
 */
module RtpReadBack {
  import opened Wrappers
  import opened Bytes
  import opened RtpElements
  import opened RtpRewriting

  /** The block can be read to its end and has at most one element under the id, or an element of
      the right size is overwritten where it stands.  Of the value only its size matters. */
  ghost predicate ReadsBack(two: bool, elements: seq<Byte>, id: nat, size: nat) {
    || (FindAt(two, elements, id).Some? && FindAt(two, elements, id).value.1 == (if two then 2 else 1) + size)
    || (WellFormed(two, elements) && Count(two, elements, id) <= 1)
  }

  // ------------------------------------------------------------------------ sufficient

  /** Blanking does not repair a block and removes one element under the id. */
  lemma BlankedKeeps(two: bool, elements: seq<Byte>, id: nat)
    requires id > 0
    ensures var b := Blanked(two, elements, id); var n := Count(two, elements, id);
      && (WellFormed(two, b) <==> WellFormed(two, elements)) && Count(two, b, id) == (if n > 0 then n - 1 else 0)
      && (Lookup(two, b, id).Some? <==> n > 1)
  {
    hide Lookup, FindAt, Encode, WellFormed, Zeros, Count, Encodable;
    FindIsLookup(two, elements, id);
    CountIsLookup(two, elements, id);
    if FindAt(two, elements, id).Some? {
      var (at, size) := FindAt(two, elements, id).value;
      var a, b, c := elements[..at], elements[at..at + size], elements[at + size..];
      assert elements == a + b + c;
      EncodeIs(two, id, Lookup(two, elements, id).value);
      CountIsLookup(two, a, id);
      LookupThree(two, a, b, c, id);
      ZerosIs(two, size);
      LookupThree(two, a, Zeros(size), c, id);
    }
    CountIsLookup(two, Blanked(two, elements, id), id);
  }

  lemma NewElementsReadBack(two: bool, elements: seq<Byte>, id: nat, value: seq<Byte>)
    requires Encodable(two, id, value) && ReadsBack(two, elements, id, |value|)
    ensures Lookup(two, NewElements(two, elements, id, value), id) == Some(value)
  {
    hide Lookup, FindAt, Encode, WellFormed, Zeros, Encodable, RoundUp, Count;
    IdIsPositive(two, id, value);
    EncodingSize(two, id, value);
    var found, e := FindAt(two, elements, id), Encode(two, id, value);
    RoundUpIs(|elements| + |e|);
    var pad := RoundUp(|elements| + |e|) - (|elements| + |e|);
    FindIsLookup(two, elements, id);
    EncodeIs(two, id, value);
    if found.Some? && found.value.1 == |e| {
      LookupThree(two, elements[..found.value.0], e, elements[found.value.0 + found.value.1..], id);
    } else {
      BlankedKeeps(two, elements, id);
      LookupThree(two, Blanked(two, elements, id), e, Zeros(pad), id);
    }
  }

  // ------------------------------------------------------------------------- necessary

  function Repeated(b: Byte, n: nat): seq<Byte> { seq(n, _ => b) }

  /** A reader that stopped inside the block goes on into the appended element, and with a
      suitable value it does not come back to it. */
  lemma StoppedShort(two: bool, block: seq<Byte>, id: nat, size: nat, pad: nat)
    requires block != [] && HeadOf(two, block).Stop? && size > 0
    requires Encodable(two, id, Repeated(if two then 0 else 255, size))
    ensures var v := Repeated(if two then 0 else 255, size);
      Lookup(two, block + (Encode(two, id, v) + Zeros(pad)), id) != Some(v)
  {
    if two { StoppedShortTwo(block, id, size, pad); } else { StoppedShortOne(block, id, size, pad); }
  }

  lemma StoppedShortOne(block: seq<Byte>, id: nat, size: nat, pad: nat)
    requires block != [] && HeadOf(false, block).Stop? && Encodable(false, id, Repeated(255, size))
    ensures var v := Repeated(255, size);
      Lookup(false, block + (Encode(false, id, v) + Zeros(pad)), id) != Some(v)
  {
    var v := Repeated(255, size);
    var tail := Encode(false, id, v) + Zeros(pad);
    var all := block + tail;
    assert all[0] == block[0] && all[|block|] == tail[0] == id * 16 + (size - 1) < 240;
    var h := HeadOf(false, all);
    if h.Element? {
      var k := 1 + h.data - |block|;
      assert k > 0;
      if h.id == id {
        assert all[1..1 + h.data][|block| - 1] == tail[0];
      } else {
        assert Rest(false, all) == tail[k..];
        if k <= size {
          assert tail[k..][0] == 255;
        } else {
          assert tail[k..] == Zeros(size + 1 + pad - k);
          ZerosIs(false, size + 1 + pad - k);
        }
      }
    }
  }

  lemma StoppedShortTwo(block: seq<Byte>, id: nat, size: nat, pad: nat)
    requires block != [] && HeadOf(true, block).Stop? && size > 0 && Encodable(true, id, Repeated(0, size))
    ensures var v := Repeated(0, size);
      Lookup(true, block + (Encode(true, id, v) + Zeros(pad)), id) != Some(v)
  {
    var v := Repeated(0, size);
    var tail := Encode(true, id, v) + Zeros(pad);
    var all := block + tail;
    assert tail[0] == id && tail[1] == size && forall i | 2 <= i < |tail| :: tail[i] == 0;
    assert all[0] == block[0] && all[|block|] == tail[0] && all[|block| + 1] == tail[1];
    assert |block| > 1 ==> all[1] == block[1];
    var h := HeadOf(true, all);
    if h.Element? {
      var data := all[2..2 + h.data];
      var k := 2 + h.data - |block|;
      assert k > 0;
      if h.id == id {
        if |block| == 1 { assert data[0] == size; } else { assert data[|block| - 2] == id; }
      } else {
        assert Rest(true, all) == tail[k..];
        AfterSwallow(tail, k, id, size);
      }
    }
  }

  lemma AfterSwallow(tail: seq<Byte>, k: nat, id: nat, size: nat)
    requires 0 < k <= |tail| && |tail| > 2 && 0 < size && tail[1] == size
    requires forall i | 2 <= i < |tail| :: tail[i] == 0
    ensures Lookup(true, tail[k..], id) != Some(Repeated(0, size))
  {
    if k > 1 {
      assert tail[k..] == Zeros(|tail| - k);
      ZerosIs(true, |tail| - k);
    } else {
      var rest := tail[1..];
      assert rest[0] == size && rest[1] == 0 && HeadOf(true, rest) == Element(size, 2, 0);
      assert Rest(true, rest) == Zeros(|tail| - 3);
      ZerosIs(true, |tail| - 3);
      assert |Repeated(0, size)| == size;
      assert Lookup(true, rest, id) == if size == id then Some(rest[2..2]) else Lookup(true, Zeros(|tail| - 3), id);
    }
  }

  /** Behind a block that stops its readers, or that has the id itself, some value is not read. */
  lemma {:induction false} SomeUnread(two: bool, block: seq<Byte>, id: nat, size: nat, pad: nat)
    returns (v: seq<Byte>)
    requires size > 0 && Encodable(two, id, Repeated(0, size))
    requires !WellFormed(two, block) || Lookup(two, block, id).Some?
    ensures |v| == size && Encodable(two, id, v)
    ensures Lookup(two, block + (Encode(two, id, v) + Zeros(pad)), id) != Some(v)
    decreases |block|
  {
    hide Encode, Zeros;
    var h := HeadOf(two, block);
    if h.Stop? {
      v := Repeated(if two then 0 else 255, size);
      StoppedShort(two, block, id, size, pad);
    } else if h.Element? && h.id == id {
      var data := block[h.header..h.header + h.data];
      v := if data == Repeated(0, size) then Repeated(1, size) else Repeated(0, size);
      assert Repeated(1, size)[0] != Repeated(0, size)[0];
      var tail := Encode(two, id, v) + Zeros(pad);
      HeadConcat(two, block, tail);
      assert (block + tail)[h.header..h.header + h.data] == data;
    } else {
      v := SomeUnread(two, Rest(two, block), id, size, pad);
      HeadConcat(two, block, Encode(two, id, v) + Zeros(pad));
    }
  }

  lemma NotReadBack(two: bool, elements: seq<Byte>, id: nat, size: nat) returns (v: seq<Byte>)
    requires size > 0 && Encodable(two, id, Repeated(0, size)) && !ReadsBack(two, elements, id, size)
    ensures |v| == size && Encodable(two, id, v) && Lookup(two, NewElements(two, elements, id, v), id) != Some(v)
  {
    hide Lookup, FindAt, Encode, WellFormed, Zeros, RoundUp, Count;
    var n := |elements| + (if two then 2 else 1) + size;
    RoundUpIs(n);
    BlankedKeeps(two, elements, id);
    var block := Blanked(two, elements, id);
    v := SomeUnread(two, block, id, size, RoundUp(n) - n);
    EncodingSize(two, id, v);
    assert block + Encode(two, id, v) + Zeros(RoundUp(n) - n) == block + (Encode(two, id, v) + Zeros(RoundUp(n) - n));
  }

  // ----------------------------------------------------------------------- the packets

  /** What a successful write into a block leaves in the packet. */
  lemma WrittenBlock(data: seq<Byte>, cap: nat, id: nat, value: seq<Byte>)
    requires ParsePacket(data).Some? && BlockLen(data).Some? && WriteValue(data, cap, id, value).Some?
    ensures var at, n := CsrcEnd(data), BlockLen(data).value;
      var profile, elements := Field(data, at), data[at + 4..at + 4 + n];
      && ParsePacket(data).value.extension == Some(Extension(profile, elements))
      && Known(profile) && Encodable(TwoByte(profile), id, value)
      && ParsePacket(WriteValue(data, cap, id, value).value) ==
           var written := Extension(profile, NewElements(TwoByte(profile), elements, id, value));
           Some(ParsePacket(data).value.(extension := Some(written)))
  {
    hide NewElements, Assemble, Encodable, Halves, Describe;
    SplitFront(data);
    DescribeExtension(Split(data).value);
    var at, n := CsrcEnd(data), BlockLen(data).value;
    var two, elements := TwoByte(Field(data, at)), data[at + 4..at + 4 + n];
    NewElementsSize(two, elements, id, value);
    SplitAssembled(data[..at], data[at..at + 2], NewElements(two, elements, id, value), data[at + 4 + n..]);
    SliceField(data, at, at + 2, 0);
    DescribeKeeps(Split(data).value, Split(WriteValue(data, cap, id, value).value).value);
  }

  lemma EncodingSize(two: bool, id: nat, value: seq<Byte>)
    requires Encodable(two, id, value)
    ensures |Encode(two, id, value)| == (if two then 2 else 1) + |value|
  {
  }

  /** Whether a write succeeds depends on the size of the value only. */
  lemma SuccessIsBySize(data: seq<Byte>, cap: nat, id: nat, value: seq<Byte>, v: seq<Byte>)
    requires WriteValue(data, cap, id, value).Some? && |v| == |value|
    ensures WriteValue(data, cap, id, v).Some?
  {
    hide Encode, FindAt, Assemble, Field, CsrcEnd, BlockLen, RoundUp;
    if BlockLen(data).Some? {
      EncodingSize(TwoByte(Field(data, CsrcEnd(data))), id, value);
      EncodingSize(TwoByte(Field(data, CsrcEnd(data))), id, v);
    } else {
      EncodingSize(false, id, value);
      EncodingSize(false, id, v);
    }
  }

  /** The write succeeds, the result parses, and a reader finds the value. */
  ghost predicate IsReadBack(data: seq<Byte>, cap: nat, id: nat, v: seq<Byte>) {
    && WriteValue(data, cap, id, v).Some? && ParsePacket(WriteValue(data, cap, id, v).value).Some?
    && ReadValue(ParsePacket(WriteValue(data, cap, id, v).value).value.extension, id) == Some(v)
  }

  /** Whatever the block holds, a successful write keeps the rest of the packet; in a new block
      the value reads back, and in an old one under the condition. */
  lemma WriteIsReadBack(data: seq<Byte>, cap: nat, id: nat, value: seq<Byte>)
    requires ParsePacket(data).Some? && WriteValue(data, cap, id, value).Some?
    ensures var before, after := ParsePacket(data).value, ParsePacket(WriteValue(data, cap, id, value).value);
      && after.Some? && after.value == before.(extension := after.value.extension)
      && (var x := before.extension;
          x.None? || ReadsBack(TwoByte(x.value.profile), x.value.elements, id, |value|) ==>
            IsReadBack(data, cap, id, value))
  {
    hide NewElements, Lookup, Encodable, ReadsBack, Describe, WriteValue, Split, Field;
    if BlockLen(data).Some? {
      WrittenBlock(data, cap, id, value);
      var at, n := CsrcEnd(data), BlockLen(data).value;
      var two, elements := TwoByte(Field(data, at)), data[at + 4..at + 4 + n];
      if ReadsBack(two, elements, id, |value|) { NewElementsReadBack(two, elements, id, value); }
    } else {
      WriteNewBlock(data, cap, id, value);
      SplitFront(data);
      DescribeExtension(Split(data).value);
      DescribeKeeps(Split(data).value, Split(WriteValue(data, cap, id, value).value).value);
      WrittenToNone(data);
    }
  }

  /** A write that succeeds keeps the rest of the packet.  Every value of its size reads back if
      and only if the packet had no block, or an element of the right size is overwritten in
      place, or the block can be read to its end and has at most one element under the id. */
  lemma WriteReadsBack(data: seq<Byte>, cap: nat, id: nat, value: seq<Byte>)
    requires ParsePacket(data).Some? && WriteValue(data, cap, id, value).Some?
    ensures var before, after := ParsePacket(data).value, ParsePacket(WriteValue(data, cap, id, value).value);
      after.Some? && after.value == before.(extension := after.value.extension)
    ensures var x := ParsePacket(data).value.extension;
      (forall v | |v| == |value| :: IsReadBack(data, cap, id, v)) <==>
        x.None? || ReadsBack(TwoByte(x.value.profile), x.value.elements, id, |value|)
  {
    hide IsReadBack, ReadsBack, WriteValue, ParsePacket;
    var x := ParsePacket(data).value.extension;
    WriteIsReadBack(data, cap, id, value);
    if x.None? || ReadsBack(TwoByte(x.value.profile), x.value.elements, id, |value|) {
      forall v | |v| == |value| ensures IsReadBack(data, cap, id, v) {
        SuccessIsBySize(data, cap, id, value, v);
        WriteIsReadBack(data, cap, id, v);
      }
    } else {
      var v := SomeWriteUnread(data, cap, id, value);
      assert !IsReadBack(data, cap, id, v);
    }
  }

  lemma SomeWriteUnread(data: seq<Byte>, cap: nat, id: nat, value: seq<Byte>) returns (v: seq<Byte>)
    requires ParsePacket(data).Some? && WriteValue(data, cap, id, value).Some?
    requires var x := ParsePacket(data).value.extension;
      x.Some? && !ReadsBack(TwoByte(x.value.profile), x.value.elements, id, |value|)
    ensures |v| == |value| && !IsReadBack(data, cap, id, v)
  {
    hide NewElements, Lookup, ReadsBack, Describe, WriteValue, Split, Field;
    BlockOfExtension(data);
    WrittenBlock(data, cap, id, value);
    WriteNeedsValue(data, cap, id, value);
    var at, n := CsrcEnd(data), BlockLen(data).value;
    v := NotReadBack(TwoByte(Field(data, at)), data[at + 4..at + 4 + n], id, |value|);
    SuccessIsBySize(data, cap, id, value, v);
    WrittenBlock(data, cap, id, v);
  }

  lemma BlockOfExtension(data: seq<Byte>)
    requires ParsePacket(data).Some? && ParsePacket(data).value.extension.Some?
    ensures BlockLen(data).Some?
  {
  }

  lemma WrittenToNone(data: seq<Byte>)
    requires Split(data).Some? && BlockLen(data).None?
    ensures Split(data).value.extension.None?
  {
  }

  /** A packet whose one-byte block starts with the reserved id 15, at which every reader stops. */
  function Stopped(): seq<Byte> { [0x90, 0, 0, 0, 0, 0, 0, 0, 0, 0, 0, 0, 0xBE, 0xDE, 0, 1, 0xF0, 0, 0, 0] }

  lemma StoppedIs()
    ensures var data := Stopped();
      && |data| == 20 && CsrcEnd(data) == 12 && BlockLen(data) == Some(4) && Field(data, 12) == 0xBEDE
      && data[16..20] == [0xF0, 0, 0, 0]
      && ParsePacket(data).Some?
  {
    var data := Stopped();
    assert data[0] == 0x90 && data[12] == 0xBE && data[13] == 0xDE && data[14] == 0 && data[15] == 1;
  }

  lemma StopsAtOnce(elements: seq<Byte>, more: seq<Byte>, id: nat)
    requires elements != [] && elements[0] as nat / 16 == 15
    ensures FindAt(false, elements, id) == None && Lookup(false, elements + more, id) == None
  {
    assert (elements + more)[0] == elements[0];
  }

  /** Outside that condition success can mean nothing.  Here the element is appended behind a byte
      that no reader passes. */
  lemma WrittenValueCanBeUnreadable()
    ensures WriteValue(Stopped(), 28, 1, [0x61]).Some? && ParsePacket(WriteValue(Stopped(), 28, 1, [0x61]).value).Some?
    ensures ReadValue(ParsePacket(WriteValue(Stopped(), 28, 1, [0x61]).value).value.extension, 1) == None
  {
    hide Stopped, CsrcEnd, BlockLen, Field, FindAt, Lookup, Assemble, ParsePacket;
    StoppedIs();
    var data, elements := Stopped(), Stopped()[16..20];
    var e := Encode(false, 1, [0x61]);
    assert |e| == 2 && RoundUp(6) == 8;
    StopsAtOnce(elements, e + Zeros(2), 1);
    assert elements + e + Zeros(2) == elements + (e + Zeros(2));
    assert NewElements(false, elements, 1, [0x61]) == elements + e + Zeros(2);
    WrittenBlock(data, 28, 1, [0x61]);
  }

  /** A packet with two elements under id 1, of two bytes and of one. */
  function Doubled(): seq<Byte> {
    [0x90, 0, 0, 0, 0, 0, 0, 0, 0, 0, 0, 0, 0xBE, 0xDE, 0, 2] + DOUBLED_BLOCK
  }

  const DOUBLED_BLOCK: seq<Byte> := [0x11, 0x61, 0x62, 0x10, 0x78, 0, 0, 0]

  lemma DoubledIs()
    ensures var data := Doubled();
      && |data| == 24 && CsrcEnd(data) == 12 && BlockLen(data) == Some(8) && Field(data, 12) == 0xBEDE
      && data[16..24] == DOUBLED_BLOCK
      && ParsePacket(data).Some?
  {
    var data := Doubled();
    assert data[0] == 0x90 && data[12] == 0xBE && data[13] == 0xDE && data[14] == 0 && data[15] == 2;
  }

  lemma SecondIsRead(more: seq<Byte>)
    ensures FindAt(false, DOUBLED_BLOCK, 1) == Some((0, 3))
    ensures Lookup(false, [0, 0, 0, 0x10, 0x78, 0, 0, 0] + more, 1) == Some([0x78])
  {
    var e, rest := Encode(false, 1, [0x78]), [0, 0, 0] + more;
    EncodeIs(false, 1, [0x78]);
    ZerosIs(false, 3);
    LookupThree(false, Zeros(3), e, rest, 1);
    assert [0, 0, 0, 0x10, 0x78, 0, 0, 0] + more == Zeros(3) + e + rest;
  }

  /** In a well-formed block the first element under the id makes room for the value, but the
      second one is read: whatever three bytes are written, the old 0x78 reads back. */
  lemma RepeatedIdIsRead(v: seq<Byte>)
    requires |v| == 3
    ensures WriteValue(Doubled(), 28, 1, v).Some? && ParsePacket(WriteValue(Doubled(), 28, 1, v).value).Some?
    ensures ReadValue(ParsePacket(WriteValue(Doubled(), 28, 1, v).value).value.extension, 1) == Some([0x78])
  {
    hide Doubled, CsrcEnd, BlockLen, Field, FindAt, Lookup, Assemble, ParsePacket;
    DoubledIs();
    var data, elements, e := Doubled(), Doubled()[16..24], Encode(false, 1, v);
    SecondIsRead(e + Zeros(0));
    assert |e| == 4 && RoundUp(12) == 12;
    var blanked: seq<Byte> := [0, 0, 0, 0x10, 0x78, 0, 0, 0];
    assert Blanked(false, elements, 1) == blanked;
    assert blanked + e + Zeros(0) == blanked + (e + Zeros(0));
    assert NewElements(false, elements, 1, v) == blanked + e + Zeros(0);
    WrittenBlock(data, 28, 1, v);
  }
}

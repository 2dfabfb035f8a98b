/**
 Reading RTP packets and rewriting their header extension (src/rtp/rtp_packet.c,
 src/rtp/rtp_ext.c): a write changes what it is asked to change and nothing else.
 */
module RtpRewriting {
  import opened Wrappers
  import opened Bytes
  import opened RtpElements

  const FIXED_LEN: nat := 12
  const ONE_BYTE_PROFILE: nat := 0xBEDE

  // ---------------------------------------------------------------------------- reading

  predicate HasX(b: Byte) { b as nat / 16 % 2 == 1 }

  predicate HasPadding(b: Byte) { b as nat / 32 % 2 == 1 }

  /** Where the contributing sources end; zero when the packet is malformed. */
  function CsrcEnd(data: seq<Byte>): (end: nat)
    ensures end <= |data| && (end > 0 ==> end >= FIXED_LEN)
  {
    if |data| < FIXED_LEN || data[0] as nat / 64 != 2 then 0
    else
      var end := FIXED_LEN + data[0] as nat % 16 * 4;
      if end <= |data| then end else 0
  }

  /** The length of the extension block that follows the contributing sources. */
  function BlockLen(data: seq<Byte>): (n: Option<nat>)
    ensures n.Some? ==>
      CsrcEnd(data) > 0 && CsrcEnd(data) + 4 + n.value <= |data| && n.value % 4 == 0 && n.value / 4 < WORD
  {
    var at := CsrcEnd(data);
    if at == 0 || !HasX(data[0]) || |data| - at < 4 then None
    else
      var n := Field(data, at + 2) * 4;
      if n > |data| - at - 4 then None else Some(n)
  }

  datatype Extension = Extension(profile: nat, elements: seq<Byte>)

  /** A packet in its parts: header with sources, extension, payload with padding. */
  datatype Parts = Parts(front: seq<Byte>, extension: Option<Extension>, tail: seq<Byte>)

  function Split(data: seq<Byte>): Option<Parts> {
    var at := CsrcEnd(data);
    if at == 0 then None
    else if !HasX(data[0]) then Some(Parts(data[..at], None, data[at..]))
    else if BlockLen(data).None? then None
    else
      var n := BlockLen(data).value;
      Some(Parts(data[..at], Some(Extension(Field(data, at), data[at + 4..at + 4 + n])), data[at + 4 + n..]))
  }

  datatype Packet = Packet(padding: bool, csrcs: seq<Byte>, marker: bool, payloadType: nat, sequence: nat,
                           timestamp: seq<Byte>, ssrc: seq<Byte>,
                           extension: Option<Extension>, payload: seq<Byte>)

  function Describe(p: Parts): Option<Packet>
    requires |p.front| >= FIXED_LEN
  {
    var padding := HasPadding(p.front[0]);
    var count := if padding && p.tail != [] then p.tail[|p.tail| - 1] as nat else 0;
    if padding && (p.tail == [] || count == 0 || count > |p.tail|) then None
    else
      Some(Packet(padding, p.front[12..], p.front[1] as nat >= 128, p.front[1] as nat % 128, Field(p.front, 2),
                  p.front[4..8], p.front[8..12],
                     p.extension, p.tail[..|p.tail| - count]))
  }

  function ParsePacket(data: seq<Byte>): Option<Packet> {
    if Split(data).None? then None else Describe(Split(data).value)
  }

  predicate Known(profile: nat) { profile == ONE_BYTE_PROFILE || profile / 16 == 0x100 }
  predicate TwoByte(profile: nat) { profile / 16 == 0x100 }

  /** What a reader finds under an id. */
  function ReadValue(extension: Option<Extension>, id: nat): Option<seq<Byte>> {
    if extension.None? || !Known(extension.value.profile) then None
    else Lookup(TwoByte(extension.value.profile), extension.value.elements, id)
  }

  // ---------------------------------------------------------------------------- writing

  function RoundUp(n: nat): nat { (n + 3) / 4 * 4 }

  /** A packet put together around an extension block. */
  function Assemble(front: seq<Byte>, profile: seq<Byte>, elements: seq<Byte>, tail: seq<Byte>): seq<Byte> {
    front + (profile + Halves(|elements| / 4)) + elements + tail
  }

  /** Removes a found element by blanking it. */
  function Blanked(two: bool, elements: seq<Byte>, id: nat): seq<Byte> {
    var found := FindAt(two, elements, id);
    if found.None? then elements
    else elements[..found.value.0] + Zeros(found.value.1) + elements[found.value.0 + found.value.1..]
  }

  /** The block after a write: overwritten in place, or blanked and appended with padding. */
  function NewElements(two: bool, elements: seq<Byte>, id: nat, value: seq<Byte>): seq<Byte>
    requires Encodable(two, id, value)
  {
    var found, e := FindAt(two, elements, id), Encode(two, id, value);
    if found.Some? && found.value.1 == |e| then
      elements[..found.value.0] + e + elements[found.value.0 + found.value.1..]
    else Blanked(two, elements, id) + e + Zeros(RoundUp(|elements| + |e|) - (|elements| + |e|))
  }

  function SetX(front: seq<Byte>): seq<Byte>
    requires front != [] && !HasX(front[0])
  {
    [front[0] as nat + 16] + front[1..]
  }

  /** Writes a value under an id; `cap` is the room in the buffer. */
  function WriteValue(data: seq<Byte>, cap: nat, id: nat, value: seq<Byte>): Option<seq<Byte>> {
    var at := CsrcEnd(data);
    if id == 0 || value == [] || |data| < FIXED_LEN || |data| > cap then None
    else if BlockLen(data).Some? then
      var n := BlockLen(data).value;
      var profile := Field(data, at);
      if !Known(profile) || !Encodable(TwoByte(profile), id, value) then None
      else
        var elements := NewElements(TwoByte(profile), data[at + 4..at + 4 + n], id, value);
        if |elements| / 4 > 65535 || |data| - n + |elements| > cap then None
        else Some(Assemble(data[..at], data[at..at + 2], elements, data[at + 4 + n..]))
    else if !Encodable(false, id, value) || HasX(data[0]) || at == 0 then None
    else
      var elements := Encode(false, id, value) + Zeros(RoundUp(1 + |value|) - (1 + |value|));
      if |data| + 4 + |elements| > cap then None
      else Some(Assemble(SetX(data[..at]), [0xBE, 0xDE], elements, data[at..]))
  }

  /** The transport-wide sequence number refuses to resize an element that is there. */
  function WriteTwcc(data: seq<Byte>, cap: nat, id: nat, number: nat): Option<seq<Byte>> {
    if id > 14 then None
    else if BlockLen(data).Some? && Known(Field(data, CsrcEnd(data))) then
      var two := TwoByte(Field(data, CsrcEnd(data)));
      var found := FindAt(two, data[CsrcEnd(data) + 4..CsrcEnd(data) + 4 + BlockLen(data).value], id);
      if found.Some? && found.value.1 != (if two then 4 else 3) then None else WriteValue(data, cap, id, Halves(number))
    else WriteValue(data, cap, id, Halves(number))
  }

  // ------------------------------------------------------------------------- exactness

  /** Everything but the extension is as before. */
  ghost predicate SameButExtension(p: Parts, q: Parts) {
    && q.tail == p.tail && |q.front| == |p.front| >= FIXED_LEN && q.front[1..] == p.front[1..]
    && q.front[0] as nat == (if HasX(p.front[0]) then p.front[0] as nat else p.front[0] as nat + 16)
  }

  /** The lengths of the front part a header byte announces. */
  ghost predicate FrontOk(front: seq<Byte>)
  {
    |front| >= FIXED_LEN && front[0] as nat / 64 == 2 && |front| == FIXED_LEN + front[0] as nat % 16 * 4
  }

  lemma SplitFront(data: seq<Byte>)
    requires Split(data).Some?
    ensures FrontOk(Split(data).value.front)
  {
  }

  /** Splitting what was assembled gives the parts back. */
  lemma SplitAssembled(front: seq<Byte>, profile: seq<Byte>, elements: seq<Byte>, tail: seq<Byte>)
    requires FrontOk(front) && HasX(front[0]) && |profile| == 2 && |elements| % 4 == 0 && |elements| / 4 < WORD
    ensures Split(Assemble(front, profile, elements, tail)) ==
      Some(Parts(front, Some(Extension(Field(profile, 0), elements)), tail))
  {
    var data := Assemble(front, profile, elements, tail);
    var at, n := |front|, |elements|;
    HalvesIs(n / 4);
    assert data[0] == front[0] && data[..at] == front;
    assert data[at] == profile[0] && data[at + 1] == profile[1];
    assert data[at + 2] == Halves(n / 4)[0] && data[at + 3] == Halves(n / 4)[1];
    assert data[at + 4..at + 4 + n] == elements && data[at + 4 + n..] == tail;
  }

  lemma SetXIs(front: seq<Byte>)
    requires FrontOk(front) && !HasX(front[0])
    ensures FrontOk(SetX(front)) && HasX(SetX(front)[0]) && SetX(front)[1..] == front[1..]
    ensures HasPadding(SetX(front)[0]) == HasPadding(front[0])
  {
  }

  /** Parsing sees the same packet apart from the extension. */
  lemma DescribeKeeps(p: Parts, q: Parts)
    requires FrontOk(p.front) && SameButExtension(p, q)
    ensures Describe(q) == if Describe(p).Some? then Some(Describe(p).value.(extension := q.extension)) else None
  {
    if !HasX(p.front[0]) { SetXIs(p.front); }
    assert forall i | 1 <= i < |p.front| :: q.front[i] == q.front[1..][i - 1] == p.front[i];
    assert q.front[12..] == p.front[12..] && q.front[4..8] == p.front[4..8] && q.front[8..12] == p.front[8..12];
  }

  lemma RoundUpIs(n: nat)
    ensures RoundUp(n) >= n && RoundUp(n) % 4 == 0
  {
  }

  lemma NewElementsSize(two: bool, elements: seq<Byte>, id: nat, value: seq<Byte>)
    requires Encodable(two, id, value) && |elements| % 4 == 0
    ensures |NewElements(two, elements, id, value)| % 4 == 0
  {
    hide Encode, FindAt;
    RoundUpIs(|elements| + |Encode(two, id, value)|);
  }

  /** The block reads the new value under its id and everything else as before. */
  lemma NewElementsIsEdit(two: bool, elements: seq<Byte>, id: nat, value: seq<Byte>)
    requires Encodable(two, id, value) && WellFormed(two, elements) && DistinctIds(two, elements)
    ensures Edited(two, elements, NewElements(two, elements, id, value), id, value)
  {
    hide Lookup, FindAt, Encode, WellFormed, DistinctIds, Edited, Zeros, Encodable, RoundUp;
    IdIsPositive(two, id, value);
    var found, e := FindAt(two, elements, id), Encode(two, id, value);
    RoundUpIs(|elements| + |e|);
    var pad := RoundUp(|elements| + |e|) - (|elements| + |e|);
    if found.None? {
      FindIsLookup(two, elements, id);
      AppendIsEdit(two, elements, id, value, pad);
    } else if found.value.1 == |e| {
      ReplaceIsEdit(two, elements, id, value);
    } else {
      BlankAndAppend(two, elements, id, value, pad);
    }
  }

  lemma BlankAndAppend(two: bool, elements: seq<Byte>, id: nat, value: seq<Byte>, pad: nat)
    requires Encodable(two, id, value) && id > 0 && WellFormed(two, elements) && DistinctIds(two, elements)
    requires FindAt(two, elements, id).Some?
    ensures Edited(two, elements, Blanked(two, elements, id) + Encode(two, id, value) + Zeros(pad), id, value)
  {
    hide Lookup, FindAt, Encode, WellFormed, DistinctIds, Edited, Zeros, Encodable;
    EraseIs(two, elements, id);
    var blanked := Blanked(two, elements, id);
    AppendIsEdit(two, blanked, id, value, pad);
    EditAfterErase(two, elements, blanked, blanked + Encode(two, id, value) + Zeros(pad), id, value);
  }

  lemma EditAfterErase(two: bool, before: seq<Byte>, between: seq<Byte>, after: seq<Byte>, id: nat, value: seq<Byte>)
    requires Edited(two, between, after, id, value) && DistinctIds(two, between)
    requires forall other: nat | other != id :: Lookup(two, between, other) == Lookup(two, before, other)
    ensures Edited(two, before, after, id, value)
  {
    hide Lookup, WellFormed, Count;
  }

  lemma IdIsPositive(two: bool, id: nat, value: seq<Byte>)
    requires Encodable(two, id, value)
    ensures id > 0
  {
  }

  /** The extension a packet carries can be read to its end, with no id twice. */
  ghost predicate CleanExtension(extension: Option<Extension>) {
    extension.Some? && Known(extension.value.profile) ==>
      && WellFormed(TwoByte(extension.value.profile), extension.value.elements)
      && DistinctIds(TwoByte(extension.value.profile), extension.value.elements)
  }

  /** A packet whose extension was changed at one id. */
  ghost predicate WrittenAt(p: Parts, q: Parts, id: nat, value: seq<Byte>) {
    && SameButExtension(p, q) && q.extension.Some? && CleanExtension(q.extension)
    && ReadValue(q.extension, id) == Some(value)
    && forall other: nat | other != id && other != 0 :: ReadValue(q.extension, other) == ReadValue(p.extension, other)
  }

  lemma WriteIntoBlock(data: seq<Byte>, cap: nat, id: nat, value: seq<Byte>)
    requires WriteValue(data, cap, id, value).Some? && BlockLen(data).Some?
    requires CleanExtension(Split(data).value.extension)
    ensures var out := Split(WriteValue(data, cap, id, value).value);
      out.Some? && WrittenAt(Split(data).value, out.value, id, value) && |WriteValue(data, cap, id, value).value| <= cap
  {
    hide NewElements, Assemble, Lookup, WellFormed, Count, Encodable, Halves;
    var at, n := CsrcEnd(data), BlockLen(data).value;
    var profile, elements := Field(data, at), data[at + 4..at + 4 + n];
    var two := TwoByte(profile);
    var new' := NewElements(two, elements, id, value);
    NewElementsIsEdit(two, elements, id, value);
    NewElementsSize(two, elements, id, value);
    SplitFront(data);
    SplitAssembled(data[..at], data[at..at + 2], new', data[at + 4 + n..]);
    SliceField(data, at, at + 2, 0);
    AssembledSize(data[..at], data[at..at + 2], new', data[at + 4 + n..]);
  }

  lemma AssembledSize(front: seq<Byte>, profile: seq<Byte>, elements: seq<Byte>, tail: seq<Byte>)
    ensures |Assemble(front, profile, elements, tail)| == |front| + |profile| + 2 + |elements| + |tail|
  {
  }

  lemma WriteNewBlock(data: seq<Byte>, cap: nat, id: nat, value: seq<Byte>)
    requires WriteValue(data, cap, id, value).Some? && BlockLen(data).None?
    ensures Split(data).Some?
    ensures var out := Split(WriteValue(data, cap, id, value).value);
      out.Some? && WrittenAt(Split(data).value, out.value, id, value) && |WriteValue(data, cap, id, value).value| <= cap
  {
    hide Assemble, Lookup, WellFormed, Count, Encodable, Encode, Zeros;
    var at, e := CsrcEnd(data), Encode(false, id, value);
    var pad := RoundUp(1 + |value|) - (1 + |value|);
    RoundUpIs(1 + |value|);
    EncodedSize(id, value);
    NothingIsWellFormed(false);
    NothingCounted();
    AppendIsEdit(false, [], id, value, pad);
    assert [] + e + Zeros(pad) == e + Zeros(pad);
    SplitFront(data);
    SetXIs(data[..at]);
    SplitAssembled(SetX(data[..at]), [0xBE, 0xDE], e + Zeros(pad), data[at..]);
    AssembledSize(SetX(data[..at]), [0xBE, 0xDE], e + Zeros(pad), data[at..]);
  }

  lemma EncodedSize(id: nat, value: seq<Byte>)
    requires Encodable(false, id, value)
    ensures |Encode(false, id, value)| == 1 + |value| <= 17 && forall n: nat :: |Zeros(n)| == n
  {
  }

  lemma NothingCounted()
    ensures forall id: nat, two: bool :: Count(two, [], id) == 0 && Lookup(two, [], id) == None
  {
  }

  /** A successful write gives a packet that parses with the same payload, sources and fixed
      fields apart from the extension bit, reads back the written value, reads every other id as
      before, and can be written again. */
  lemma WriteIsExact(data: seq<Byte>, cap: nat, id: nat, value: seq<Byte>)
    requires ParsePacket(data).Some? && CleanExtension(ParsePacket(data).value.extension)
    requires WriteValue(data, cap, id, value).Some?
    ensures var out := WriteValue(data, cap, id, value).value;
      var before, after := ParsePacket(data).value, ParsePacket(out);
      && |out| <= cap && after.Some? && after.value == before.(extension := after.value.extension)
      && CleanExtension(after.value.extension) && ReadValue(after.value.extension, id) == Some(value)
      && forall other: nat | other != id && other != 0 ::
           ReadValue(after.value.extension, other) == ReadValue(before.extension, other)
  {
    hide WriteValue, Split, CleanExtension, ReadValue;
    SplitFront(data);
    DescribeExtension(Split(data).value);
    if BlockLen(data).Some? { WriteIntoBlock(data, cap, id, value); } else { WriteNewBlock(data, cap, id, value); }
    var out := Split(WriteValue(data, cap, id, value).value).value;
    DescribeKeeps(Split(data).value, out);
  }

  lemma DescribeExtension(p: Parts)
    requires FrontOk(p.front) && Describe(p).Some?
    ensures Describe(p).value.extension == p.extension
  {
  }

  /** The same for the transport-wide sequence number. */
  lemma WriteTwccIsExact(data: seq<Byte>, cap: nat, id: nat, number: nat)
    requires ParsePacket(data).Some? && CleanExtension(ParsePacket(data).value.extension)
    requires WriteTwcc(data, cap, id, number).Some? && number < WORD
    ensures var out := WriteTwcc(data, cap, id, number).value;
      var before, after := ParsePacket(data).value, ParsePacket(out);
      && |out| <= cap && after.Some? && after.value == before.(extension := after.value.extension)
      && CleanExtension(after.value.extension)
      && ReadTwcc(after.value.extension, id) == Some(number)
      && forall other: nat | other != id && other != 0 ::
           ReadValue(after.value.extension, other) == ReadValue(before.extension, other)
  {
    hide WriteValue, Split, CleanExtension, ReadValue, Describe;
    assert WriteTwcc(data, cap, id, number) == WriteValue(data, cap, id, Halves(number));
    WriteIsExact(data, cap, id, Halves(number));
    WriteNeedsId(data, cap, id, Halves(number));
    HalvesIs(number);
  }

  lemma WriteNeedsId(data: seq<Byte>, cap: nat, id: nat, value: seq<Byte>)
    requires WriteValue(data, cap, id, value).Some?
    ensures id > 0
  {
  }

  /** The reader of the transport-wide sequence number. */
  function ReadTwcc(extension: Option<Extension>, id: nat): Option<nat> {
    if id == 0 || id > 14 || ReadValue(extension, id).None? || |ReadValue(extension, id).value| < 2 then None
    else Some(Field(ReadValue(extension, id).value, 0))
  }

  /** The reader of the media id: a value that fits the caller's buffer with its terminator. */
  function ReadMid(extension: Option<Extension>, id: nat, room: nat): Option<seq<Byte>> {
    var value := ReadValue(extension, id);
    if id == 0 || room < 2 || value.None? || |value.value| == 0 || |value.value| >= room then None else value
  }

  /** And for the media id, for a reader whose buffer holds it with its terminator. */
  lemma WriteMidIsExact(data: seq<Byte>, cap: nat, id: nat, mid: seq<Byte>, room: nat)
    requires ParsePacket(data).Some? && CleanExtension(ParsePacket(data).value.extension)
    requires WriteValue(data, cap, id, mid).Some?
    ensures var out := WriteValue(data, cap, id, mid).value;
      var before, after := ParsePacket(data).value, ParsePacket(out);
      && after.Some? && after.value == before.(extension := after.value.extension)
      && ReadMid(after.value.extension, id, room) == (if |mid| < room then Some(mid) else None)
      && forall other: nat | other != id && other != 0 ::
           ReadMid(after.value.extension, other, room) == ReadMid(before.extension, other, room)
  {
    hide Split, CleanExtension, ReadValue, Describe, WriteValue;
    WriteIsExact(data, cap, id, mid);
    WriteNeedsValue(data, cap, id, mid);
  }

  lemma WriteNeedsValue(data: seq<Byte>, cap: nat, id: nat, value: seq<Byte>)
    requires WriteValue(data, cap, id, value).Some?
    ensures id > 0 && value != []
  {
  }
}

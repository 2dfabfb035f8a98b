/**
 The in-place forms: the scanning loops and the writer that moves the payload inside the
 packet buffer, proved to compute the functions of `RtpRewriting`.
 */
module RtpInPlace {
  import opened Wrappers
  import opened Bytes
  import opened RtpElements
  import opened RtpRewriting

  /** What stands at a position of the list. */
  method ReadHead(two: bool, ext: seq<Byte>, pos: nat) returns (h: Head)
    requires pos < |ext|
    ensures h == HeadOf(two, ext[pos..])
  {
    var b := ext[pos] as nat;
    if b == 0 { return Padding; }
    if two {
      if pos + 2 > |ext| { return Stop; }
      var data := ext[pos + 1] as nat;
      if pos + 2 + data > |ext| { return Stop; }
      return Element(b, 2, data);
    }
    if b / 16 == 15 { return Stop; }
    var data := b % 16 + 1;
    if pos + 1 + data > |ext| { return Stop; }
    h := Element(b / 16, 1, data);
  }

  /** The scan for an element, byte position by byte position. */
  method FindElement(two: bool, ext: seq<Byte>, id: nat) returns (found: Option<(nat, nat)>)
    ensures found == FindAt(two, ext, id)
  {
    hide HeadOf, FindAt;
    var pos := 0;
    assert ext[0..] == ext;
    while pos < |ext|
      invariant pos <= |ext|
      invariant FindAt(two, ext, id) == Shifted(FindAt(two, ext[pos..], id), pos)
    {
      FindStep(two, ext, pos, id);
      var h := ReadHead(two, ext, pos);
      if h.Stop? { return None; }
      if h.Padding? {
        pos := pos + 1;
        continue;
      }
      if h.id == id { return Some((pos, h.header + h.data)); }
      pos := pos + h.header + h.data;
    }
    FindNothing(two, ext[pos..], id);
    found := None;
  }

  lemma FindNothing(two: bool, ext: seq<Byte>, id: nat)
    requires ext == []
    ensures FindAt(two, ext, id) == None
  {
  }

  /** One step of the scan. */
  lemma FindStep(two: bool, ext: seq<Byte>, pos: nat, id: nat)
    requires pos < |ext|
    ensures var h := HeadOf(two, ext[pos..]); var r := FindAt(two, ext[pos..], id);
      && (h.Stop? ==> r == None)
      && (h.Padding? ==> r == Shifted(FindAt(two, ext[pos + 1..], id), 1))
      && (h.Element? ==>
            && pos + h.header + h.data <= |ext|
            && r ==
                 if h.id == id then Some((0, h.header + h.data))
                 else Shifted(FindAt(two, ext[pos + h.header + h.data..], id), h.header + h.data))
  {
    hide HeadOf;
    var rest := ext[pos..];
    var h := HeadOf(two, rest);
    if h.Padding? { assert rest[1..] == ext[pos + 1..]; }
    if h.Element? { assert rest[h.header + h.data..] == ext[pos + h.header + h.data..]; }
  }

  ghost function Shifted(r: Option<(nat, nat)>, n: nat): Option<(nat, nat)> {
    if r.None? then None else Some((r.value.0 + n, r.value.1))
  }

  /** Moves the bytes from `from` up to `len` by `grow` places, last byte first. */
  method MoveUp(buffer: array<Byte>, from: nat, len: nat, grow: nat)
    requires from <= len && len + grow <= buffer.Length
    modifies buffer
    ensures buffer[..] == Put(old(buffer[..]), from + grow, old(buffer[from..len]))
  {
    var i := len;
    while i > from
      invariant from <= i <= len
      invariant forall j | 0 <= j < buffer.Length ::
        buffer[j] == if i + grow <= j < len + grow then old(buffer[j - grow]) else old(buffer[j])
    {
      i := i - 1;
      buffer[i + grow] := buffer[i];
    }
  }

  /** The effect of opening a gap in front of a tail. */
  lemma GapIs(head: seq<Byte>, tail: seq<Byte>, spare: seq<Byte>, gap: seq<Byte>)
    requires |gap| <= |spare|
    ensures Put(Put(head + tail + spare, |head| + |gap|, tail), |head|, gap) == head + gap + (tail + spare[|gap|..])
  {
    hide Put;
    var grow := |gap|;
    var all := tail + spare;
    var x, y, z := all[..grow], all[grow..grow + |tail|], all[grow + |tail|..];
    assert head + tail + spare == (head + x) + y + z;
    PutLast(head + tail + spare, head + x, y, z, tail);
    assert z == spare[grow..];
    assert (head + x) + tail + z == head + x + (tail + z);
    PutLast(head + x + (tail + z), head, x, tail + z, gap);
  }

  lemma SizeInFront(front: seq<Byte>, profile: seq<Byte>, size: seq<Byte>, elements: seq<Byte>, gap: seq<Byte>,
                    rest: seq<Byte>)
    ensures (front + (profile + size) + elements) + gap + rest == (front + profile) + size + (elements + gap + rest)
  {
  }

  /** Moving the tail up, blanking the gap and setting the new size. */
  lemma GrownIs(front: seq<Byte>, profile: seq<Byte>, size: seq<Byte>, elements: seq<Byte>, tail: seq<Byte>,
                spare: seq<Byte>, gap: seq<Byte>, size': seq<Byte>)
    requires |gap| <= |spare| && |size'| == |size|
    ensures var head := front + (profile + size) + elements;
      Put(Put(Put(head + tail + spare, |head| + |gap|, tail), |head|, gap), |front + profile|, size') ==
      front + (profile + size') + elements + gap + (tail + spare[|gap|..])
  {
    hide Put;
    GapIs(front + (profile + size) + elements, tail, spare, gap);
    var rest := tail + spare[|gap|..];
    SizeInFront(front, profile, size, elements, gap, rest);
    PutLast((front + profile) + size + (elements + gap + rest), front + profile, size, elements + gap + rest, size');
    SizeInFront(front, profile, size', elements, gap, rest);
  }

  /** Makes room for `grow` zero bytes at the end of the extension block and sets its length. */
  method GrowBlock(buffer: array<Byte>, len: nat, at: nat, n: nat, grow: nat, ghost front: seq<Byte>,
                   ghost profile: seq<Byte>, ghost size: seq<Byte>,
                   ghost elements: seq<Byte>, ghost tail: seq<Byte>, ghost spare: seq<Byte>)
    requires |front| == at && |profile| == |size| == 2 && |elements| == n && at + 4 + n + |tail| == len
    requires len + grow <= buffer.Length && |spare| == buffer.Length - len
    requires buffer[..] == (front + (profile + size) + elements) + tail + spare
    modifies buffer
    ensures buffer[..] == front + (profile + Halves((n + grow) / 4)) + elements + Zeros(grow) + (tail + spare[grow..])
  {
    hide Put, Halves;
    ghost var b := buffer[..];
    MiddleIs(b, front + (profile + size) + elements, tail, spare);
    assert buffer[at + 4 + n..len] == b[at + 4 + n..len];
    GrownIs(front, profile, size, elements, tail, spare, Zeros(grow), Halves((n + grow) / 4));
    MoveUp(buffer, at + 4 + n, len, grow);
    CopyTo(buffer, at + 4 + n, Zeros(grow));
    CopyTo(buffer, at + 2, Halves((n + grow) / 4));
  }

  /** Overwriting part of the elements. */
  lemma OverwriteElement(b: seq<Byte>, head: seq<Byte>, elements: seq<Byte>, rest: seq<Byte>, off: nat, y: seq<Byte>)
    requires b == head + elements + rest && off + |y| <= |elements|
    ensures Put(b, |head| + off, y) == head + (elements[..off] + y + elements[off + |y|..]) + rest
  {
  }

  /** Appends an element to the block, if the block and the buffer have room for it. */
  method AppendElement(buffer: array<Byte>, len: nat, at: nat, n: nat, e: seq<Byte>, ghost front: seq<Byte>,
                       ghost profile: seq<Byte>,
                       ghost elements: seq<Byte>, ghost tail: seq<Byte>,
                           ghost spare: seq<Byte>) returns (out: Option<nat>)
    requires |front| == at && |profile| == 2 && |elements| == n && n % 4 == 0 && |e| > 0
    requires at + 4 + n + |tail| == len <= buffer.Length && |spare| == buffer.Length - len
    requires buffer[..] == Assemble(front, profile, elements, tail) + spare
    modifies buffer
    ensures var total := RoundUp(n + |e|);
      && out == (if total / 4 > 65535 || len + (total - n) > buffer.Length then None else Some(len + (total - n)))
      && buffer[..] ==
           if out.None? then old(buffer[..])
           else Assemble(front, profile, elements + e + Zeros(total - (n + |e|)), tail) + spare[total - n..]
  {
    hide Put, Halves, RoundUp;
    RoundUpIs(n + |e|);
    var total := RoundUp(n + |e|);
    var grow := total - n;
    if total / 4 > 65535 || len + grow > buffer.Length { return None; }
    ghost var b := buffer[..];
    assert b == (front + (profile + Halves(n / 4)) + elements) + tail + spare;
    GrowBlock(buffer, len, at, n, grow, front, profile, Halves(n / 4), elements, tail, spare);
    ghost var head := front + (profile + Halves(total / 4)) + elements;
    ghost var grown := buffer[..];
    CopyTo(buffer, at + 4 + n, e);
    OverwriteElement(grown, head, Zeros(grow), tail + spare[grow..], 0, e);
    AppendedIs(front, profile, elements, e, grow, tail, spare[grow..]);
    out := Some(len + grow);
  }

  lemma AppendedIs(front: seq<Byte>, profile: seq<Byte>, elements: seq<Byte>, e: seq<Byte>, grow: nat,
                   tail: seq<Byte>, spare: seq<Byte>)
    requires |e| <= grow
    ensures var size := Halves((|elements| + grow) / 4);
      (front + (profile + size) + elements) + (Zeros(grow)[..0] + e + Zeros(grow)[|e|..]) + (tail + spare)
      == Assemble(front, profile, elements + e + Zeros(grow - |e|), tail) + spare
  {
    hide Halves;
    assert Zeros(grow)[|e|..] == Zeros(grow - |e|);
    assert Zeros(grow)[..0] + e == e;
  }

  predicate Overwrites(two: bool, elements: seq<Byte>, id: nat, e: seq<Byte>) {
    FindAt(two, elements, id).Some? && FindAt(two, elements, id).value.1 == |e|
  }

  function Replaced(two: bool, elements: seq<Byte>, id: nat, e: seq<Byte>): seq<Byte>
    requires FindAt(two, elements, id).Some?
  {
    var (off, size) := FindAt(two, elements, id).value;
    elements[..off] + e + elements[off + size..]
  }

  /** `y` in place of the `size` bytes from `off` on. */
  function Spliced(elements: seq<Byte>, off: nat, size: nat, y: seq<Byte>): seq<Byte>
    requires off + size <= |elements|
  {
    elements[..off] + y + elements[off + size..]
  }

  lemma EditsAre(two: bool, elements: seq<Byte>, id: nat, e: seq<Byte>)
    ensures match FindAt(two, elements, id)
            case None => Blanked(two, elements, id) == elements
            case Some((off, size)) =>
              && Replaced(two, elements, id, e) == Spliced(elements, off, size, e)
              && Blanked(two, elements, id) == Spliced(elements, off, size, Zeros(size))
  {
    hide FindAt, Zeros;
  }

  lemma MiddleIs(b: seq<Byte>, head: seq<Byte>, elements: seq<Byte>, rest: seq<Byte>)
    requires b == head + elements + rest
    ensures b[|head|..|head| + |elements|] == elements
  {
  }

  /** Overwrites part of the elements behind a header. */
  method OverwriteAt(buffer: array<Byte>, at: nat, off: nat, size: nat, y: seq<Byte>, ghost head: seq<Byte>,
                     ghost elements: seq<Byte>, ghost rest: seq<Byte>)
    requires |head| == at && buffer[..] == head + elements + rest && off + size <= |elements| && |y| == size
    modifies buffer
    ensures buffer[..] == head + Spliced(elements, off, size, y) + rest
  {
    OverwriteElement(buffer[..], head, elements, rest, off, y);
    hide Put;
    CopyTo(buffer, at + off, y);
  }

  /** Looks an id up in the elements behind a header. */
  method FindInBuffer(buffer: array<Byte>, at: nat, n: nat, two: bool, id: nat, ghost head: seq<Byte>,
                      ghost elements: seq<Byte>, ghost rest: seq<Byte>) returns (found: Option<(nat, nat)>)
    requires |head| == at && |elements| == n && buffer[..] == head + elements + rest
    ensures found == FindAt(two, elements, id)
  {
    hide FindAt;
    MiddleIs(buffer[..], head, elements, rest);
    assert buffer[at..at + n] == buffer[..][at..at + n];
    found := FindElement(two, buffer[at..at + n], id);
  }

  /** Overwrites an element of the same size, or blanks one of another size. */
  method OverwriteOrBlank(buffer: array<Byte>, at: nat, n: nat, two: bool, id: nat, e: seq<Byte>,
                          ghost head: seq<Byte>, ghost elements: seq<Byte>, ghost rest: seq<Byte>)
    returns (done: bool)
    requires |head| == at && |elements| == n && buffer[..] == head + elements + rest
    modifies buffer
    ensures done == Overwrites(two, elements, id, e)
    ensures buffer[..] == head + (if done then Replaced(two, elements, id, e) else Blanked(two, elements, id)) + rest
  {
    hide FindAt, Spliced, Replaced, Blanked;
    EditsAre(two, elements, id, e);
    var found := FindInBuffer(buffer, at, n, two, id, head, elements, rest);
    done := false;
    if found.Some? {
      var (off, size) := found.value;
      if size == |e| {
        OverwriteAt(buffer, at, off, size, e, head, elements, rest);
        return true;
      }
      OverwriteAt(buffer, at, off, size, Zeros(size), head, elements, rest);
    }
  }

  /** Writes into a block that is there: over an element of the same size, or behind the others
      after blanking an element of another size. */
  method WriteExisting(buffer: array<Byte>, len: nat, at: nat, n: nat, two: bool, id: nat, value: seq<Byte>,
                       ghost front: seq<Byte>, ghost profile: seq<Byte>, ghost elements: seq<Byte>,
                           ghost tail: seq<Byte>, ghost spare: seq<Byte>) returns (out: Option<nat>)
    requires |front| == at && |profile| == 2 && |elements| == n && n % 4 == 0 && n / 4 < WORD
    requires at + 4 + n + |tail| == len <= buffer.Length && |spare| == buffer.Length - len
    requires buffer[..] == Assemble(front, profile, elements, tail) + spare && Encodable(two, id, value)
    modifies buffer
    ensures var new' := NewElements(two, elements, id, value);
      && out == (if |new'| / 4 > 65535 || len - n + |new'| > buffer.Length then None else Some(len - n + |new'|))
      && buffer[..] == if out.None? then Assemble(front, profile, Blanked(two, elements, id), tail) + spare
                       else Assemble(front, profile, new', tail) + spare[|new'| - n..]
  {
    hide Put, FindAt, Encode, Encodable, Zeros, RoundUp, Assemble, NewElements, Blanked, Replaced, Halves;
    var e := Encode(two, id, value);
    NewElementsAre(two, elements, id, value, e);
    Regrouped(front, profile, elements, tail, spare, n);
    var done := OverwriteOrBlank(buffer, at + 4, n, two, id, e, front + (profile + Halves(n / 4)), elements,
                                 tail + spare);
    if done {
      Regrouped(front, profile, Replaced(two, elements, id, e), tail, spare, n);
      return Some(len);
    }
    Regrouped(front, profile, Blanked(two, elements, id), tail, spare, n);
    out := AppendElement(buffer, len, at, n, e, front, profile, Blanked(two, elements, id), tail, spare);
  }

  /** The two forms a written block has. */
  lemma NewElementsAre(two: bool, elements: seq<Byte>, id: nat, value: seq<Byte>, e: seq<Byte>)
    requires Encodable(two, id, value) && e == Encode(two, id, value)
    ensures e != [] && |Blanked(two, elements, id)| == |elements| && RoundUp(|elements| + |e|) >= |elements| + |e|
    ensures var new' := NewElements(two, elements, id, value); var total := RoundUp(|elements| + |e|);
      if Overwrites(two, elements, id, e) then new' == Replaced(two, elements, id, e) && |new'| == |elements|
      else new' == Blanked(two, elements, id) + e + Zeros(total - (|elements| + |e|)) && |new'| == total
  {
    hide FindAt, Encode, RoundUp, Encodable;
    EncodeIs(two, id, value);
    RoundUpIs(|elements| + |e|);
  }

  lemma Regrouped(front: seq<Byte>, profile: seq<Byte>, elements: seq<Byte>, tail: seq<Byte>, spare: seq<Byte>, n: nat)
    requires |elements| == n
    ensures (front + (profile + Halves(n / 4))) + elements + (tail + spare) ==
      Assemble(front, profile, elements, tail) + spare
    ensures spare[0..] == spare
  {
    hide Halves;
  }

  /** Opening a gap for a block and writing an element into it. */
  lemma NewBlockIs(front: seq<Byte>, tail: seq<Byte>, spare: seq<Byte>, e: seq<Byte>, size: nat)
    requires |e| <= size && 4 + size <= |spare|
    ensures var gap := [0xBE, 0xDE] + Halves(size / 4) + Zeros(size);
      Put(Put(Put(front + tail + spare, |front| + |gap|, tail), |front|, gap), |front| + 4, e) ==
      Assemble(front, [0xBE, 0xDE], e + Zeros(size - |e|), tail) + spare[4 + size..]
  {
    hide Put, Halves;
    var start := [0xBE, 0xDE] + Halves(size / 4);
    var gap := start + Zeros(size);
    var head, rest := front + start, tail + spare[4 + size..];
    GapIs(front, tail, spare, gap);
    assert front + gap + rest == head + Zeros(size) + rest;
    OverwriteElement(front + gap + rest, head, Zeros(size), rest, 0, e);
    AppendedIs(front, [0xBE, 0xDE], [], e, size, tail, spare[4 + size..]);
    assert [] + e + Zeros(size - |e|) == e + Zeros(size - |e|) && head + [] == head;
  }

  /** Opens a gap behind the sources and builds a block with one element in it. */
  method WriteNew(buffer: array<Byte>, len: nat, at: nat, id: nat, value: seq<Byte>, ghost front: seq<Byte>,
                  ghost tail: seq<Byte>, ghost spare: seq<Byte>) returns (out: Option<nat>)
    requires |front| == at > 0 && at + |tail| == len <= buffer.Length && |spare| == buffer.Length - len
    requires buffer[..] == front + tail + spare
    requires !HasX(front[0]) && Encodable(false, id, value)
    modifies buffer
    ensures var elements := Encode(false, id, value) + Zeros(RoundUp(1 + |value|) - (1 + |value|));
      && out == (if len + 4 + |elements| > buffer.Length then None else Some(len + 4 + |elements|))
      && buffer[..] ==
           if out.None? then old(buffer[..])
           else Assemble(SetX(front), [0xBE, 0xDE], elements, tail) + spare[4 + |elements|..]
  {
    hide Put, Halves, RoundUp, Encode, Assemble, Zeros;
    var e := Encode(false, id, value);
    EncodedSize(id, value);
    RoundUpIs(1 + |value|);
    var size := RoundUp(1 + |value|);
    if len + 4 + size > buffer.Length { return None; }
    ghost var b := buffer[..];
    MiddleIs(b, front, tail, spare);
    assert buffer[at..len] == b[at..len];
    NewBlockIs(front, tail, spare, e, size);
    MoveUp(buffer, at, len, 4 + size);
    CopyTo(buffer, at, [0xBE, 0xDE] + Halves(size / 4) + Zeros(size));
    CopyTo(buffer, at + 4, e);
    MarkExtension(buffer, front, e + Zeros(size - |e|), tail, spare[4 + size..]);
    out := Some(len + 4 + size);
  }

  /** Sets the extension bit of the first byte. */
  method MarkExtension(buffer: array<Byte>, ghost front: seq<Byte>, ghost elements: seq<Byte>, ghost tail: seq<Byte>,
                       ghost spare: seq<Byte>)
    requires front != [] && !HasX(front[0]) && buffer[..] == Assemble(front, [0xBE, 0xDE], elements, tail) + spare
    modifies buffer
    ensures buffer[..] == Assemble(SetX(front), [0xBE, 0xDE], elements, tail) + spare
  {
    hide Halves;
    assert buffer.Length > 0 && buffer[0] == front[0] by { assert buffer[..][0] == front[0]; }
    buffer[0] := buffer[0] as nat + 16;
    assert buffer[..] == old(buffer[..])[0 := front[0] as nat + 16];
  }

  /** A packet with an extension block is put together from its parts. */
  lemma DataIsAssembled(data: seq<Byte>)
    requires BlockLen(data).Some?
    ensures var at, n := CsrcEnd(data), BlockLen(data).value;
      data == Assemble(data[..at], data[at..at + 2], data[at + 4..at + 4 + n], data[at + 4 + n..])
  {
    var at, n := CsrcEnd(data), BlockLen(data).value;
    assert Halves(n / 4) == [data[at + 2], data[at + 3]];
    assert data[at..at + 4] == data[at..at + 2] + [data[at + 2], data[at + 3]];
  }

  /** What a failed write leaves behind: nothing changed, except that an element of another size
      under the same id has been blanked already. */
  function Residue(data: seq<Byte>, cap: nat, id: nat, value: seq<Byte>): seq<Byte> {
    var at := CsrcEnd(data);
    if |data| > cap || BlockLen(data).None? || id == 0 || value == [] then data
    else if !Known(Field(data, at)) || !Encodable(TwoByte(Field(data, at)), id, value) then data
    else
      var n := BlockLen(data).value;
      Assemble(data[..at], data[at..at + 2], Blanked(TwoByte(Field(data, at)), data[at + 4..at + 4 + n], id),
               data[at + 4 + n..])
  }

  /** A buffer with a packet of `len` bytes after a write: the written packet, or on failure the
      residue, in front of untouched bytes. */
  ghost predicate WroteAs(before: seq<Byte>, len: nat, id: nat, value: seq<Byte>, out: Option<nat>, after: seq<Byte>)
    requires len <= |before|
  {
    var written := WriteValue(before[..len], |before|, id, value);
    && out == (if written.Some? then Some(|written.value|) else None)
    && after ==
         if written.Some? && |written.value| <= |before| then written.value + before[|written.value|..]
         else Residue(before[..len], |before|, id, value) + before[len..]
  }

  lemma WroteNothing(before: seq<Byte>, len: nat, id: nat, value: seq<Byte>)
    requires len <= |before| && WriteValue(before[..len], |before|, id, value).None?
    requires Residue(before[..len], |before|, id, value) == before[..len]
    ensures WroteAs(before, len, id, value, None, before)
  {
    assert before == before[..len] + before[len..];
  }

  lemma WroteBlock(before: seq<Byte>, data: seq<Byte>, at: nat, n: nat, two: bool, elements: seq<Byte>,
                   new': seq<Byte>, id: nat, value: seq<Byte>, out: Option<nat>, after: seq<Byte>)
    requires FIXED_LEN <= |data| <= |before| && data == before[..|data|] && BlockLen(data) == Some(n)
    requires at == CsrcEnd(data) && id != 0 && value != []
    requires two == TwoByte(Field(data, at)) && elements == data[at + 4..at + 4 + n] && Known(Field(data, at))
    requires Encodable(two, id, value) && new' == NewElements(two, elements, id, value) && |new'| >= n
    requires out == (if |new'| / 4 > 65535 || |data| - n + |new'| > |before| then None else Some(|data| - n + |new'|))
    requires out.None? ==>
      after ==
        Assemble(data[..at], data[at..at + 2], Blanked(two, elements, id), data[at + 4 + n..]) + before[|data|..]
    requires out.Some? ==>
      after == Assemble(data[..at], data[at..at + 2], new', data[at + 4 + n..]) + before[|data|..][|new'| - n..]
    ensures WroteAs(before, |data|, id, value, out, after)
  {
    hide NewElements, Blanked, Encodable, Assemble;
    AssembledSize(data[..at], data[at..at + 2], new', data[at + 4 + n..]);
    if out.Some? { assert before[|data|..][|new'| - n..] == before[|data| + (|new'| - n)..]; }
  }

  lemma WroteFresh(before: seq<Byte>, len: nat, id: nat, value: seq<Byte>, out: Option<nat>, after: seq<Byte>)
    requires FIXED_LEN <= len <= |before| && BlockLen(before[..len]).None? && id != 0 && value != []
    requires var data := before[..len]; var at := CsrcEnd(data);
      && at > 0 && !HasX(data[0]) && Encodable(false, id, value) && RoundUp(1 + |value|) >= 1 + |value|
      && var elements := Encode(false, id, value) + Zeros(RoundUp(1 + |value|) - (1 + |value|));
         && out == (if len + 4 + |elements| > |before| then None else Some(len + 4 + |elements|))
         && after ==
              if out.None? then before
              else Assemble(SetX(data[..at]), [0xBE, 0xDE], elements, data[at..]) + before[len..][4 + |elements|..]
    ensures WroteAs(before, len, id, value, out, after)
  {
    hide Encode, Zeros, Encodable, Assemble, RoundUp;
    var data := before[..len];
    var at := CsrcEnd(data);
    var elements := Encode(false, id, value) + Zeros(RoundUp(1 + |value|) - (1 + |value|));
    AssembledSize(SetX(data[..at]), [0xBE, 0xDE], elements, data[at..]);
    if out.Some? {
      assert before[len..][4 + |elements|..] == before[len + (4 + |elements|)..];
    } else {
      WroteNothing(before, len, id, value);
    }
  }

  /** The writer on a buffer that holds a packet of `len` bytes. */
  method WriteInPlace(buffer: array<Byte>, len: nat, id: nat, value: seq<Byte>) returns (out: Option<nat>)
    requires len <= buffer.Length
    modifies buffer
    ensures WroteAs(old(buffer[..]), len, id, value, out, buffer[..])
  {
    hide NewElements, Blanked, Encode, Encodable, Zeros, Assemble, RoundUp, Halves, WroteAs;
    ghost var b, spare := buffer[..], buffer[..][len..];
    ghost var data := b[..len];
    assert buffer[..len] == data && b == data + spare;
    if id == 0 || value == [] || len < FIXED_LEN {
      WroteNothing(b, len, id, value);
      return None;
    }
    var at := CsrcEnd(buffer[..len]);
    var block := BlockLen(buffer[..len]);
    if block.Some? {
      var n := block.value;
      var profile := Field(buffer[..len], at);
      var fits := CanEncode(TwoByte(profile), id, value);
      if !Known(profile) || !fits {
        WroteNothing(b, len, id, value);
        return None;
      }
      DataIsAssembled(data);
      NewElementsGrow(TwoByte(profile), data[at + 4..at + 4 + n], id, value);
      out := WriteExisting(buffer, len, at, n, TwoByte(profile), id, value, data[..at], data[at..at + 2],
                           data[at + 4..at + 4 + n], data[at + 4 + n..], spare);
      WroteBlock(b, data, at, n, TwoByte(profile), data[at + 4..at + 4 + n],
                 NewElements(TwoByte(profile), data[at + 4..at + 4 + n], id, value), id, value, out, buffer[..]);
      return;
    }
    var fits := CanEncode(false, id, value);
    if !fits || HasX(buffer[0]) || at == 0 {
      WroteNothing(b, len, id, value);
      return None;
    }
    assert data == data[..at] + data[at..];
    RoundUpIs(1 + |value|);
    out := WriteNew(buffer, len, at, id, value, data[..at], data[at..], spare);
    WroteFresh(b, len, id, value, out, buffer[..]);
  }

  lemma NewElementsGrow(two: bool, elements: seq<Byte>, id: nat, value: seq<Byte>)
    requires Encodable(two, id, value)
    ensures |NewElements(two, elements, id, value)| >= |elements|
  {
    hide FindAt, Encode, RoundUp;
    RoundUpIs(|elements| + |Encode(two, id, value)|);
  }

  method CanEncode(two: bool, id: nat, value: seq<Byte>) returns (ok: bool)
    ensures ok == Encodable(two, id, value)
  {
    ok := if two then 0 < id < 256 && |value| < 256 else 0 < id <= 14 && 0 < |value| <= 16;
  }

  // --------------------------------------------------------------- failures with a trace

  /** A write that gets as far as looking for its id finds an element there. */
  predicate FindsElement(data: seq<Byte>, cap: nat, id: nat, value: seq<Byte>) {
    && |data| <= cap && BlockLen(data).Some? && id != 0 && value != [] && Known(Field(data, CsrcEnd(data)))
    && Encodable(TwoByte(Field(data, CsrcEnd(data))), id, value)
    && FindAt(TwoByte(Field(data, CsrcEnd(data))), data[CsrcEnd(data) + 4..CsrcEnd(data) + 4 + BlockLen(data).value],
              id).Some?
  }

  lemma AssembleDiffers(front: seq<Byte>, profile: seq<Byte>, x: seq<Byte>, y: seq<Byte>, tail: seq<Byte>)
    requires |x| == |y| && x != y
    ensures Assemble(front, profile, x, tail) != Assemble(front, profile, y, tail)
  {
    var h := front + (profile + Halves(|x| / 4));
    MiddleIs(Assemble(front, profile, x, tail), h, x, tail);
    MiddleIs(Assemble(front, profile, y, tail), h, y, tail);
  }

  /** A failed write leaves the packet as it was exactly when it found no element to replace. */
  lemma FailedWriteKeepsPacket(data: seq<Byte>, cap: nat, id: nat, value: seq<Byte>)
    ensures Residue(data, cap, id, value) == data <==> !FindsElement(data, cap, id, value)
  {
    hide FindAt, Encodable, WriteValue, CsrcEnd, BlockLen, Field, Assemble, Blanked, Known;
    if BlockLen(data).Some? {
      var at, n := CsrcEnd(data), BlockLen(data).value;
      var two, elements := TwoByte(Field(data, at)), data[at + 4..at + 4 + n];
      DataIsAssembled(data);
      if id != 0 {
        BlankedIs(two, elements, id);
        if FindAt(two, elements, id).Some? {
          AssembleDiffers(data[..at], data[at..at + 2], Blanked(two, elements, id), elements, data[at + 4 + n..]);
        }
      }
    }
  }

  /** An element of `size` bytes is to replace one of `found` bytes, and the block of `n` bytes
      cannot grow by it. */
  predicate Outgrows(found: nat, size: nat, n: nat, len: nat, cap: nat) {
    found != size && (RoundUp(n + size) / 4 > 65535 || len - n + RoundUp(n + size) > cap)
  }

  /** The element found is of another size, and the grown block does not fit. */
  predicate OutgrowsBuffer(data: seq<Byte>, cap: nat, id: nat, value: seq<Byte>) {
    && FindsElement(data, cap, id, value)
    && var two := TwoByte(Field(data, CsrcEnd(data)));
    var found := FindAt(two, data[CsrcEnd(data) + 4..CsrcEnd(data) + 4 + BlockLen(data).value], id);
    Outgrows(found.value.1, (if two then 2 else 1) + |value|, BlockLen(data).value, |data|, cap)
  }

  /** A write succeeds or changes nothing, except exactly when it would have to resize an element
      that is there and the larger block does not fit. */
  lemma WriteIsAllOrNothing(data: seq<Byte>, cap: nat, id: nat, value: seq<Byte>)
    ensures WriteValue(data, cap, id, value).Some? || Residue(data, cap, id, value) == data <==>
      !OutgrowsBuffer(data, cap, id, value)
  {
    hide FindAt, Encodable, CsrcEnd, BlockLen, Field, Assemble, Known, NewElements, Encode, RoundUp, Residue;
    FailedWriteKeepsPacket(data, cap, id, value);
    if FindsElement(data, cap, id, value) {
      var at, n := CsrcEnd(data), BlockLen(data).value;
      NewElementsSized(TwoByte(Field(data, at)), data[at + 4..at + 4 + n], id, value);
    }
  }

  lemma NewElementsSized(two: bool, elements: seq<Byte>, id: nat, value: seq<Byte>)
    requires Encodable(two, id, value) && FindAt(two, elements, id).Some?
    ensures var size := (if two then 2 else 1) + |value|;
      |NewElements(two, elements, id, value)| ==
        if FindAt(two, elements, id).value.1 == size then |elements| else RoundUp(|elements| + size)
  {
    hide FindAt, RoundUp;
    RoundUpIs(|elements| + |Encode(two, id, value)|);
  }

  lemma BlankedIs(two: bool, elements: seq<Byte>, id: nat)
    requires id != 0
    ensures |Blanked(two, elements, id)| == |elements|
    ensures (Blanked(two, elements, id) == elements <==> FindAt(two, elements, id).None?)
  {
    if FindAt(two, elements, id).Some? { BlankedDiffers(two, elements, id); }
  }

  lemma BlankedDiffers(two: bool, elements: seq<Byte>, id: nat)
    requires id != 0 && FindAt(two, elements, id).Some?
    ensures |Blanked(two, elements, id)| == |elements| && Blanked(two, elements, id) != elements
  {
    FindIsLookup(two, elements, id);
    var (off, size) := FindAt(two, elements, id).value;
    var value := Lookup(two, elements, id).value;
    assert Encode(two, id, value)[0] == if two then id else id * 16 + (|value| - 1);
    assert elements[off..off + size] == Encode(two, id, value);
    assert elements[off] == elements[off..off + size][0];
    assert Blanked(two, elements, id)[off] == 0;
  }

  /** A packet with the media id "a" under id 1. */
  function Sample(): seq<Byte> { [0x90, 0, 0, 0, 0, 0, 0, 0, 0, 0, 0, 0, 0xBE, 0xDE, 0, 1, 0x10, 0x61, 0, 0] }

  lemma SampleIs()
    ensures |Sample()| == 20 && CsrcEnd(Sample()) == 12 && BlockLen(Sample()) == Some(4)
    ensures Field(Sample(), 12) == 0xBEDE && Sample()[16..20] == [0x10, 0x61, 0, 0]
  {
    var data := Sample();
    assert data[0] == 0x90 && data[12] == 0xBE && data[13] == 0xDE && data[14] == 0 && data[15] == 1;
  }

  lemma SampleElement()
    ensures FindAt(false, [0x10, 0x61, 0, 0], 1) == Some((0, 2))
  {
    var elements: seq<Byte> := [0x10, 0x61, 0, 0];
    assert elements[0] == 0x10;
    assert HeadOf(false, elements) == Element(1, 1, 1);
  }

  /** The failure is real: in a full buffer a media id is replaced by a longer one. */
  lemma FailedWriteCanEraseAnElement()
    ensures WriteValue(Sample(), 20, 1, [0x61, 0x62]).None? && Residue(Sample(), 20, 1, [0x61, 0x62]) != Sample()
  {
    hide Residue, WriteValue, Sample, FindAt, CsrcEnd, BlockLen, Field;
    SampleIs();
    SampleElement();
    assert FindsElement(Sample(), 20, 1, [0x61, 0x62]);
    WriteIsAllOrNothing(Sample(), 20, 1, [0x61, 0x62]);
  }

  // ------------------------------------------------------- the transport-wide number

  /** Writing the transport-wide number never loses an element: a failed write changes nothing. */
  method WriteTwccInPlace(buffer: array<Byte>, len: nat, id: nat, number: nat) returns (out: Option<nat>)
    requires len <= buffer.Length
    modifies buffer
    ensures var before := old(buffer[..]); var written := WriteTwcc(before[..len], |before|, id, number);
      && out == (if written.Some? then Some(|written.value|) else None)
      && buffer[..] ==
           if written.Some? && |written.value| <= |before| then written.value + before[|written.value|..] else before
  {
    hide FindAt, Encode, Encodable, CsrcEnd, BlockLen, Field, Known, WriteValue, Residue, Halves;
    ghost var b := buffer[..];
    assert buffer[..len] == b[..len] && b == b[..len] + b[len..];
    if id > 14 { return None; }
    var block := BlockLen(buffer[..len]);
    if block.Some? {
      var at := CsrcEnd(buffer[..len]);
      var two := TwoByte(Field(buffer[..len], at));
      if Known(Field(buffer[..len], at)) {
        var found := FindElement(two, buffer[..len][at + 4..at + 4 + block.value], id);
        if found.Some? && found.value.1 != (if two then 4 else 3) { return None; }
      }
    }
    TwccFits(b[..len], buffer.Length, id, number);
    WrittenFits(b[..len], buffer.Length, id, Halves(number));
    WriteIsAllOrNothing(b[..len], buffer.Length, id, Halves(number));
    out := WriteInPlace(buffer, len, id, Halves(number));
  }

  lemma WrittenFits(data: seq<Byte>, cap: nat, id: nat, value: seq<Byte>)
    ensures WriteValue(data, cap, id, value).Some? ==> |WriteValue(data, cap, id, value).value| <= cap
  {
    hide NewElements, Encode, Encodable, Zeros, RoundUp, Assemble, Field, Known;
    var at := CsrcEnd(data);
    if WriteValue(data, cap, id, value).Some? && BlockLen(data).Some? {
      var n := BlockLen(data).value;
      AssembledSize(data[..at], data[at..at + 2],
                    NewElements(TwoByte(Field(data, at)), data[at + 4..at + 4 + n], id, value), data[at + 4 + n..]);
    } else if WriteValue(data, cap, id, value).Some? {
      RoundUpIs(1 + |value|);
      AssembledSize(SetX(data[..at]), [0xBE, 0xDE],
                    Encode(false, id, value) + Zeros(RoundUp(1 + |value|) - (1 + |value|)), data[at..]);
    }
  }

  /** An element of the right size is never outgrown. */
  lemma TwccFits(data: seq<Byte>, cap: nat, id: nat, number: nat)
    requires BlockLen(data).Some? && Known(Field(data, CsrcEnd(data))) ==>
      var two := TwoByte(Field(data, CsrcEnd(data)));
      var found := FindAt(two, data[CsrcEnd(data) + 4..CsrcEnd(data) + 4 + BlockLen(data).value], id);
      found.Some? ==> found.value.1 == if two then 4 else 3
    ensures !OutgrowsBuffer(data, cap, id, Halves(number))
  {
    hide FindAt, CsrcEnd, BlockLen, Field, Known, RoundUp, Halves, Encodable;
    if FindsElement(data, cap, id, Halves(number)) {
      var two := TwoByte(Field(data, CsrcEnd(data)));
      assert FindAt(two, data[CsrcEnd(data) + 4..CsrcEnd(data) + 4 + BlockLen(data).value], id).value.1 ==
          (if two then 2 else 1) + |Halves(number)|;
    }
  }
}

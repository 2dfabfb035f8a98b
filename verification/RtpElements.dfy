/**
 The element list inside an RTP header extension (src/rtp/rtp_ext.c): one-byte headers
 (section 4.2 of RFC 8285) and two-byte headers (section 4.3), with padding between elements.
 */
module RtpElements {
  import opened Wrappers
  import opened Bytes

  /** What stands at the head of a list: padding, an element, or something the scan stops at. */
  datatype Head = Stop | Padding | Element(id: nat, header: nat, data: nat)

  function HeadOf(two: bool, ext: seq<Byte>): (h: Head)
    requires ext != []
    ensures h.Element? ==> 0 < h.header <= 2 && h.header + h.data <= |ext|
  {
    var b := ext[0] as nat;
    if b == 0 then Padding
    else if two then (if |ext| < 2 || 2 + ext[1] as nat > |ext| then Stop else Element(b, 2, ext[1] as nat))
    else if b / 16 == 15 || 2 + b % 16 > |ext| then Stop
    else Element(b / 16, 1, b % 16 + 1)
  }

  /** What is left after the head. */
  function Rest(two: bool, ext: seq<Byte>): (r: seq<Byte>)
    requires ext != [] && !HeadOf(two, ext).Stop?
    ensures |r| < |ext|
  {
    var h := HeadOf(two, ext);
    if h.Padding? then ext[1..] else ext[h.header + h.data..]
  }

  /** The data of the first element with an id; a malformed element ends the search. */
  function Lookup(two: bool, ext: seq<Byte>, id: nat): Option<seq<Byte>>
    decreases |ext|
  {
    if ext == [] then None
    else
      var h := HeadOf(two, ext);
      if h.Stop? then None
      else if h.Element? && h.id == id then Some(ext[h.header..h.header + h.data])
      else Lookup(two, Rest(two, ext), id)
  }

  /** A list of whole elements and padding up to the end of the block. */
  predicate WellFormed(two: bool, ext: seq<Byte>)
    decreases |ext|
  {
    ext == [] || (!HeadOf(two, ext).Stop? && WellFormed(two, Rest(two, ext)))
  }

  /** How many elements carry an id. */
  function Count(two: bool, ext: seq<Byte>, id: nat): nat
    decreases |ext|
  {
    if ext == [] || HeadOf(two, ext).Stop? then 0
    else
      var h := HeadOf(two, ext);
      (if h.Element? && h.id == id then 1 else 0) + Count(two, Rest(two, ext), id)
  }

  /** No id but zero occurs twice. */
  ghost predicate DistinctIds(two: bool, ext: seq<Byte>) { forall id: nat | id > 0 :: Count(two, ext, id) <= 1 }

  // ---------------------------------------------------------------------- concatenation

  /** A head that is complete on its own is the same in front of anything. */
  lemma HeadConcat(two: bool, a: seq<Byte>, b: seq<Byte>)
    requires a != [] && !HeadOf(two, a).Stop?
    ensures HeadOf(two, a + b) == HeadOf(two, a) && Rest(two, a + b) == Rest(two, a) + b
  {
    assert (a + b)[0] == a[0];
    if two && |a| >= 2 { assert (a + b)[1] == a[1]; }
  }

  lemma {:induction false} LookupConcat(two: bool, a: seq<Byte>, b: seq<Byte>, id: nat)
    requires WellFormed(two, a)
    ensures Lookup(two, a + b, id) == if Lookup(two, a, id).Some? then Lookup(two, a, id) else Lookup(two, b, id)
    decreases |a|
  {
    if a == [] {
      assert a + b == b;
    } else {
      HeadConcat(two, a, b);
      LookupConcat(two, Rest(two, a), b, id);
      var h := HeadOf(two, a);
      if h.Element? { assert (a + b)[h.header..h.header + h.data] == a[h.header..h.header + h.data]; }
    }
  }

  lemma {:induction false} WellFormedConcat(two: bool, a: seq<Byte>, b: seq<Byte>)
    requires WellFormed(two, a)
    ensures WellFormed(two, a + b) <==> WellFormed(two, b)
    decreases |a|
  {
    if a == [] {
      assert a + b == b;
    } else {
      HeadConcat(two, a, b);
      WellFormedConcat(two, Rest(two, a), b);
    }
  }

  lemma {:induction false} CountConcat(two: bool, a: seq<Byte>, b: seq<Byte>, id: nat)
    requires WellFormed(two, a)
    ensures Count(two, a + b, id) == Count(two, a, id) + Count(two, b, id)
    decreases |a|
  {
    if a == [] {
      assert a + b == b;
    } else {
      HeadConcat(two, a, b);
      CountConcat(two, Rest(two, a), b, id);
    }
  }

  lemma {:induction false} CountIsLookup(two: bool, ext: seq<Byte>, id: nat)
    ensures Count(two, ext, id) == 0 <==> Lookup(two, ext, id).None?
    decreases |ext|
  {
    if ext != [] && !HeadOf(two, ext).Stop? { CountIsLookup(two, Rest(two, ext), id); }
  }

  // ------------------------------------------------------------------------ one element

  predicate Encodable(two: bool, id: nat, value: seq<Byte>) {
    if two then 0 < id < 256 && |value| < 256 else 0 < id < 15 && 0 < |value| <= 16
  }

  function Encode(two: bool, id: nat, value: seq<Byte>): seq<Byte>
    requires Encodable(two, id, value)
  {
    (if two then [id, |value|] else [id * 16 + (|value| - 1)]) + value
  }

  function Zeros(n: nat): seq<Byte> { seq(n, _ => 0) }

  lemma EncodeIs(two: bool, id: nat, value: seq<Byte>)
    requires Encodable(two, id, value)
    ensures var e := Encode(two, id, value);
      && e != [] && HeadOf(two, e) == Element(id, if two then 2 else 1, |value|) && Rest(two, e) == []
      && WellFormed(two, e) && Lookup(two, e, id) == Some(value) && Count(two, e, id) == 1
      && forall other: nat | other != id :: Lookup(two, e, other) == None && Count(two, e, other) == 0
  {
    var e := Encode(two, id, value);
    assert e[if two then 2 else 1..] == value;
    var h := HeadOf(two, e);
    assert Rest(two, e) == [];
    assert e[h.header..h.header + h.data] == value;
    assert WellFormed(two, []);
    forall other: nat ensures Lookup(two, [], other) == None && Count(two, [], other) == 0 {}
    assert Count(two, e, id) == 1 + Count(two, [], id);
    forall other: nat | other != id ensures Lookup(two, e, other) == None && Count(two, e, other) == 0 {
      assert Lookup(two, e, other) == Lookup(two, [], other) && Count(two, e, other) == Count(two, [], other);
    }
  }

  lemma {:induction false} ZerosIs(two: bool, n: nat)
    ensures WellFormed(two, Zeros(n))
    ensures forall id: nat :: Lookup(two, Zeros(n), id) == None && Count(two, Zeros(n), id) == 0
  {
    if n == 0 {
      assert Zeros(n) == [];
    } else {
      assert Zeros(n)[1..] == Zeros(n - 1) && Zeros(n)[0] == 0;
      assert Rest(two, Zeros(n)) == Zeros(n - 1);
      ZerosIs(two, n - 1);
      forall id: nat ensures Lookup(two, Zeros(n), id) == None && Count(two, Zeros(n), id) == 0 {
        assert Lookup(two, Zeros(n - 1), id) == None && Count(two, Zeros(n - 1), id) == 0;
      }
    }
  }

  /** The head of a well-formed list is an encoding of what it holds. */
  lemma HeadIsEncoding(two: bool, ext: seq<Byte>)
    requires ext != [] && HeadOf(two, ext).Element? && HeadOf(two, ext).id != 0
    ensures var h := HeadOf(two, ext); var data := ext[h.header..h.header + h.data];
      Encodable(two, h.id, data) && ext[..h.header + h.data] == Encode(two, h.id, data)
  {
    var h := HeadOf(two, ext);
    var data := ext[h.header..h.header + h.data];
    assert ext[..h.header + h.data] == ext[..h.header] + data;
    if two { assert ext[..2] == [ext[0], ext[1]]; } else { assert ext[..1] == [ext[0]]; }
  }

  // ---------------------------------------------------------------------------- finding

  /** Where an id is found: the offset of its element and the size of the whole element. */
  function FindAt(two: bool, ext: seq<Byte>, id: nat): (r: Option<(nat, nat)>)
    ensures r.Some? ==> r.value.0 + r.value.1 <= |ext|
    decreases |ext|
  {
    if ext == [] then None
    else
      var h := HeadOf(two, ext);
      if h.Stop? then None
      else if h.Element? && h.id == id then Some((0, h.header + h.data))
      else
        var r := FindAt(two, Rest(two, ext), id);
        if r.None? then None else Some((|ext| - |Rest(two, ext)| + r.value.0, r.value.1))
  }

  /** The finder is the lookup: before the element nothing has its id, and the element is the
      encoding of its value. */
  lemma {:induction false} FindIsLookup(two: bool, ext: seq<Byte>, id: nat)
    requires id != 0
    ensures FindAt(two, ext, id).Some? <==> Lookup(two, ext, id).Some?
    ensures match FindAt(two, ext, id)
            case None => true
            case Some((at, size)) =>
              var value := Lookup(two, ext, id).value;
              && WellFormed(two, ext[..at]) && Lookup(two, ext[..at], id) == None
              && Encodable(two, id, value) && ext[at..at + size] == Encode(two, id, value)
    decreases |ext|
  {
    hide HeadOf, Rest, Encode, Encodable, WellFormed;
    if ext != [] && !HeadOf(two, ext).Stop? {
      var h, rest := HeadOf(two, ext), Rest(two, ext);
      if h.Element? && h.id == id {
        HeadIsEncoding(two, ext);
        assert ext[..0] == [];
        NothingIsWellFormed(two);
      } else {
        FindIsLookup(two, rest, id);
        var r := FindAt(two, rest, id);
        if r.Some? {
          var (at, size) := r.value;
          var n := |ext| - |rest|;
          RestIsSuffix(two, ext);
          assert ext[n + at..n + at + size] == rest[at..at + size];
          SkipHead(two, ext, at, id);
        }
      }
    }
  }

  lemma NothingIsWellFormed(two: bool)
    ensures WellFormed(two, [])
  {
  }

  lemma RestIsSuffix(two: bool, ext: seq<Byte>)
    requires ext != [] && !HeadOf(two, ext).Stop?
    ensures Rest(two, ext) == ext[|ext| - |Rest(two, ext)|..]
  {
  }

  /** The head cut off on its own. */
  lemma HeadAlone(two: bool, ext: seq<Byte>)
    requires ext != [] && !HeadOf(two, ext).Stop?
    ensures var head := ext[..|ext| - |Rest(two, ext)|];
      head != [] && HeadOf(two, head) == HeadOf(two, ext) && Rest(two, head) == []
  {
    var head := ext[..|ext| - |Rest(two, ext)|];
    assert head[0] == ext[0];
    if two && HeadOf(two, ext).Element? { assert head[1] == ext[1]; }
  }

  /** Putting the skipped head back in front of a prefix. */
  lemma SkipHead(two: bool, ext: seq<Byte>, at: nat, id: nat)
    requires ext != [] && !HeadOf(two, ext).Stop? && at <= |Rest(two, ext)| && id != 0
    requires !(HeadOf(two, ext).Element? && HeadOf(two, ext).id == id)
    requires WellFormed(two, Rest(two, ext)[..at]) && Lookup(two, Rest(two, ext)[..at], id) == None
    ensures var n := |ext| - |Rest(two, ext)|; WellFormed(two, ext[..n + at]) && Lookup(two, ext[..n + at], id) == None
  {
    hide HeadOf, Rest;
    var n := |ext| - |Rest(two, ext)|;
    var head, tail := ext[..n], Rest(two, ext)[..at];
    RestIsSuffix(two, ext);
    assert ext[..n + at] == head + tail;
    HeadAlone(two, ext);
    LookupConcat(two, head, tail, id);
    WellFormedConcat(two, head, tail);
  }

  // ---------------------------------------------------------------------------- editing

  /** The list around a found element. */
  lemma AroundFound(two: bool, ext: seq<Byte>, id: nat)
    requires WellFormed(two, ext) && id != 0 && FindAt(two, ext, id).Some?
    ensures Lookup(two, ext, id).Some?
    ensures var (at, size) := FindAt(two, ext, id).value; var value := Lookup(two, ext, id).value;
      && ext == ext[..at] + ext[at..at + size] + ext[at + size..] && WellFormed(two, ext[..at])
      && WellFormed(two, ext[at + size..])
      && Encodable(two, id, value) && ext[at..at + size] == Encode(two, id, value)
      && Lookup(two, ext[..at], id) == None && (DistinctIds(two, ext) ==> Lookup(two, ext[at + size..], id) == None)
  {
    hide Lookup, FindAt, Encode, WellFormed, Count;
    FindIsLookup(two, ext, id);
    var (at, size) := FindAt(two, ext, id).value;
    var value := Lookup(two, ext, id).value;
    var pre, elem, post := ext[..at], ext[at..at + size], ext[at + size..];
    assert ext == pre + elem + post && pre + elem + post == pre + (elem + post);
    EncodeIs(two, id, value);
    WellFormedConcat(two, pre, elem + post);
    WellFormedConcat(two, elem, post);
    CountConcat(two, pre, elem + post, id);
    CountConcat(two, elem, post, id);
    CountIsLookup(two, post, id);
  }

  /** What a list reads for every id after an edit that put `value` under `id`. */
  ghost predicate Edited(two: bool, before: seq<Byte>, after: seq<Byte>, id: nat, value: seq<Byte>) {
    && WellFormed(two, after) && Lookup(two, after, id) == Some(value)
    && (forall other: nat | other != id && other != 0 :: Lookup(two, after, other) == Lookup(two, before, other))
    && (DistinctIds(two, before) ==> DistinctIds(two, after))
  }

  lemma LookupThree(two: bool, a: seq<Byte>, b: seq<Byte>, c: seq<Byte>, id: nat)
    requires WellFormed(two, a) && WellFormed(two, b)
    ensures Lookup(two, a + b + c, id) ==
      if Lookup(two, a, id).Some? then Lookup(two, a, id)
      else if Lookup(two, b, id).Some? then Lookup(two, b, id) else Lookup(two, c, id)
    ensures Count(two, a + b + c, id) == Count(two, a, id) + Count(two, b, id) + Count(two, c, id)
    ensures WellFormed(two, a + b + c) <==> WellFormed(two, c)
  {
    hide Lookup, Count, WellFormed;
    WellFormedConcat(two, a, b);
    LookupConcat(two, a + b, c, id);
    LookupConcat(two, a, b, id);
    CountConcat(two, a + b, c, id);
    CountConcat(two, a, b, id);
    WellFormedConcat(two, a + b, c);
  }

  /** Overwriting the found element with one of the same size. */
  lemma ReplaceIsEdit(two: bool, ext: seq<Byte>, id: nat, value: seq<Byte>)
    requires WellFormed(two, ext) && id != 0 && FindAt(two, ext, id).Some? && Encodable(two, id, value)
    ensures var (at, size) := FindAt(two, ext, id).value;
      Edited(two, ext, ext[..at] + Encode(two, id, value) + ext[at + size..], id, value)
  {
    hide Lookup, FindAt, Encode, WellFormed, Count;
    AroundFound(two, ext, id);
    var (at, size) := FindAt(two, ext, id).value;
    var pre, elem, post := ext[..at], ext[at..at + size], ext[at + size..];
    EncodeIs(two, id, Lookup(two, ext, id).value);
    EncodeIs(two, id, value);
    LookupThree(two, pre, Encode(two, id, value), post, id);
    forall other: nat ensures Count(two, pre + Encode(two, id, value) + post, other) == Count(two, ext, other)
      && (other != id ==> Lookup(two, pre + Encode(two, id, value) + post, other) == Lookup(two, ext, other)) {
      LookupThree(two, pre, Encode(two, id, value), post, other);
      LookupThree(two, pre, elem, post, other);
    }
  }

  /** Appending an element and padding to a list without its id. */
  lemma AppendIsEdit(two: bool, ext: seq<Byte>, id: nat, value: seq<Byte>, pad: nat)
    requires WellFormed(two, ext) && Lookup(two, ext, id) == None && Encodable(two, id, value)
    ensures Edited(two, ext, ext + Encode(two, id, value) + Zeros(pad), id, value)
  {
    hide Lookup, Encode, WellFormed, Count, Zeros;
    var after := ext + Encode(two, id, value) + Zeros(pad);
    EncodeIs(two, id, value);
    ZerosIs(two, pad);
    CountIsLookup(two, ext, id);
    LookupThree(two, ext, Encode(two, id, value), Zeros(pad), id);
    forall other: nat | other != id
      ensures Lookup(two, after, other) == Lookup(two, ext, other) && Count(two, after, other) == Count(two, ext, other)
    {
      LookupThree(two, ext, Encode(two, id, value), Zeros(pad), other);
    }
  }

  /** Blanking the found element removes exactly its id. */
  lemma EraseIs(two: bool, ext: seq<Byte>, id: nat)
    requires WellFormed(two, ext) && id != 0 && FindAt(two, ext, id).Some? && DistinctIds(two, ext)
    ensures var (at, size) := FindAt(two, ext, id).value; var erased := ext[..at] + Zeros(size) + ext[at + size..];
      && WellFormed(two, erased) && Lookup(two, erased, id) == None && DistinctIds(two, erased)
      && forall other: nat | other != id :: Lookup(two, erased, other) == Lookup(two, ext, other)
  {
    hide Lookup, FindAt, Encode, WellFormed, Count, Zeros;
    AroundFound(two, ext, id);
    var (at, size) := FindAt(two, ext, id).value;
    var pre, elem, post := ext[..at], ext[at..at + size], ext[at + size..];
    EncodeIs(two, id, Lookup(two, ext, id).value);
    ZerosIs(two, size);
    LookupThree(two, pre, Zeros(size), post, id);
    CountIsLookup(two, pre, id);
    CountIsLookup(two, post, id);
    forall other: nat | other != id
      ensures Lookup(two, pre + Zeros(size) + post, other) == Lookup(two, ext, other)
      ensures Count(two, pre + Zeros(size) + post, other) == Count(two, ext, other) {
      LookupThree(two, pre, Zeros(size), post, other);
      LookupThree(two, pre, elem, post, other);
    }
  }
}

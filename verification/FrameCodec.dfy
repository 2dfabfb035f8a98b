/**
 Ethernet/IPv4/UDP frames (src/net/af_xdp_frame.c): building them in a buffer and parsing
 them, with one optional VLAN tag, IP options and both checksums.
 */
module FrameCodec {
  import opened Wrappers
  import opened Bytes
  import opened FrameChecksum

  const ETH_SIZE: nat := 14
  const VLAN_SIZE: nat := 4
  const IP_SIZE: nat := 20
  const UDP_SIZE: nat := 8
  const HEADER_SIZE: nat := 42
  const UDP_PROTOCOL: Byte := 17

  // ---------------------------------------------------------------------------- parsing

  datatype Parsed = Parsed(payload: seq<Byte>, payloadCap: nat, sourceIp: seq<Byte>, sourcePort: seq<Byte>,
                           headerLen: nat, vlan: bool)

  /** The pieces the UDP checksum runs over: addresses, protocol, length, datagram. */
  function UdpChecksum(ips: seq<Byte>, udp: seq<Byte>): nat {
    var addresses := AddBytes(START, ips);
    var protocol := AddBytes(addresses, [0, UDP_PROTOCOL]);
    Finish(AddBytes(AddBytes(protocol, Halves(|udp|)), udp))
  }

  function ParseUdp(frame: seq<Byte>, capacity: nat, port: nat, offset: nat, ihl: nat, total: nat,
                    vlan: bool): Option<Parsed>
    requires 20 <= ihl && ihl + UDP_SIZE <= total && offset + total <= |frame| <= capacity
  {
    var at := offset + ihl;
    var udpLen := Field(frame, at + 4);
    if udpLen <= UDP_SIZE || udpLen > total - ihl || at + udpLen > |frame| || Field(frame, at + 2) != port then None
    else if Field(frame, at + 6) != 0 && UdpChecksum(frame[offset + 12..offset + 20], frame[at..at + udpLen]) != 0 then
      None
    else
      Some(Parsed(frame[at + UDP_SIZE..at + udpLen], capacity - (at + UDP_SIZE), frame[offset + 12..offset + 16],
                  frame[at..at + 2], at + UDP_SIZE, vlan))
  }

  function ParseIp(frame: seq<Byte>, capacity: nat, port: nat, offset: nat, protocol: nat, vlan: bool): Option<Parsed>
    requires |frame| <= capacity
  {
    if protocol != 0x0800 || |frame| < offset + IP_SIZE then None
    else
      var ihl := frame[offset] as nat % 16 * 4;
      var total := Field(frame, offset + 2);
      if frame[offset] as nat / 16 != 4 || ihl < IP_SIZE || total < ihl + UDP_SIZE then None
      else if |frame| < offset + ihl || total > |frame| - offset then None
      else if frame[offset + 9] != UDP_PROTOCOL || Field(frame, offset + 6) % 0x4000 != 0 then None
      else if Checksum(frame[offset..offset + ihl]) != 0 then None
      else ParseUdp(frame, capacity, port, offset, ihl, total, vlan)
  }

  function ParseFrame(frame: seq<Byte>, capacity: nat, port: nat): Option<Parsed> {
    if |frame| > capacity || |frame| < ETH_SIZE then None
    else
      var protocol := Field(frame, 12);
      if protocol != 0x8100 && protocol != 0x88a8 then ParseIp(frame, capacity, port, ETH_SIZE, protocol, false)
      else if |frame| < ETH_SIZE + VLAN_SIZE then None
      else ParseIp(frame, capacity, port, ETH_SIZE + VLAN_SIZE, Field(frame, 16), true)
  }

  // --------------------------------------------------------------------------- building

  datatype Params = Params(sourceMac: seq<Byte>, destinationMac: seq<Byte>, sourceIp: seq<Byte>,
                           destinationIp: seq<Byte>,
                           sourcePort: seq<Byte>, destinationPort: seq<Byte>, payload: seq<Byte>)

  predicate Sized(p: Params) {
    && |p.sourceMac| == |p.destinationMac| == 6 && |p.sourceIp| == |p.destinationIp| == 4
    && |p.sourcePort| == |p.destinationPort| == 2
  }

  predicate Fits(p: Params, capacity: nat)
  {
    0 < |p.payload| <= 65535 - IP_SIZE - UDP_SIZE && HEADER_SIZE + |p.payload| <= capacity
  }

  function EthHeader(p: Params): seq<Byte> { p.destinationMac + p.sourceMac + [8, 0] }

  /** The IP header around its checksum. */
  function IpFront(p: Params): seq<Byte>
  {
    [0x45, 0] + Halves(IP_SIZE + UDP_SIZE + |p.payload|) + [0, 0, 0, 0, 64, UDP_PROTOCOL]
  }

  function IpHeader(p: Params, check: nat): seq<Byte> { IpFront(p) + Halves(check) + (p.sourceIp + p.destinationIp) }

  /** The UDP datagram around its checksum. */
  function UdpFront(p: Params): seq<Byte> { p.sourcePort + p.destinationPort + Halves(UDP_SIZE + |p.payload|) }

  function Datagram(p: Params, check: nat): seq<Byte> { UdpFront(p) + Halves(check) + p.payload }

  function IpCheck(p: Params): nat { Checksum(IpHeader(p, 0)) }

  /** A checksum of zero would mean none, so it is sent as 0xffff. */
  function UdpCheck(p: Params): nat {
    var c := UdpChecksum(p.sourceIp + p.destinationIp, Datagram(p, 0));
    if c == 0 then 0xffff else c
  }

  function BuiltFrame(p: Params): seq<Byte> { EthHeader(p) + IpHeader(p, IpCheck(p)) + Datagram(p, UdpCheck(p)) }

  // -------------------------------------------------------------------------- checksums

  /** The word sum around a checksum field at an even place. */
  lemma SumAround(front: seq<Byte>, check: nat, back: seq<Byte>)
    requires |front| % 2 == 0 && check < WORD
    ensures WordSum(front + Halves(check) + back) == WordSum(front) + check + WordSum(back)
  {
    HalvesIs(check);
    WordSumWith(front, Halves(check)[0], Halves(check)[1], back);
    assert front + Halves(check) + back == front + [Halves(check)[0], Halves(check)[1]] + back;
  }

  lemma IpVerifies(p: Params)
    requires Sized(p)
    ensures Checksum(IpHeader(p, IpCheck(p))) == 0
  {
    hide WordSum, Fold, AddBytes, Checksum;
    var back := p.sourceIp + p.destinationIp;
    SumAround(IpFront(p), 0, back);
    SumAround(IpFront(p), IpCheck(p), back);
    SumIsSmall(IpHeader(p, 0));
    SumIsSmall(IpHeader(p, IpCheck(p)));
    ChecksumIs(IpHeader(p, 0));
    ChecksumIs(IpHeader(p, IpCheck(p)));
    SumVerifies(WordSum(IpHeader(p, 0)));
  }

  /** The pseudo header and the datagram summed as one byte string. */
  lemma UdpChecksumIs(ips: seq<Byte>, udp: seq<Byte>)
    requires |ips| == 8 && |udp| < WORD
    ensures UdpChecksum(ips, udp) == 65535 - Fold(WordSum(ips + [0, UDP_PROTOCOL] + Halves(|udp|)) + WordSum(udp))
  {
    hide WordSum, Fold, AddBytes, Finish;
    var pseudo := ips + [0, UDP_PROTOCOL] + Halves(|udp|);
    AddInPieces(START, ips, [0, UDP_PROTOCOL]);
    AddInPieces(START, ips + [0, UDP_PROTOCOL], Halves(|udp|));
    AddInPieces(START, pseudo, udp);
    WordSumConcat(pseudo, udp);
    SumIsSmall(pseudo + udp);
    FinishIs(pseudo + udp);
  }

  lemma FinishIs(bytes: seq<Byte>)
    requires WordSum(bytes) < LONG
    ensures Finish(AddBytes(START, bytes)) == 65535 - Fold(WordSum(bytes))
  {
    hide WordSum, Fold, AddBytes;
    ChecksumIs(bytes);
  }

  lemma UdpVerifies(p: Params)
    requires Sized(p) && |p.payload| <= 65535 - IP_SIZE - UDP_SIZE
    ensures 0 < UdpCheck(p) < WORD && UdpChecksum(p.sourceIp + p.destinationIp, Datagram(p, UdpCheck(p))) == 0
  {
    hide WordSum, Fold, AddBytes, Finish, UdpChecksum;
    var ips, zero, full := p.sourceIp + p.destinationIp, Datagram(p, 0), Datagram(p, UdpCheck(p));
    var pseudo := ips + [0, UDP_PROTOCOL] + Halves(|zero|);
    UdpChecksumIs(ips, zero);
    SumAround(UdpFront(p), 0, p.payload);
    SumVerifies(WordSum(pseudo) + WordSum(zero));
    SumAround(UdpFront(p), UdpCheck(p), p.payload);
    UdpChecksumIs(ips, full);
  }

  // ------------------------------------------------------------------------- round trip

  /** Where the headers and the payload of a built frame are. */
  lemma BuiltParts(p: Params)
    requires Sized(p)
    ensures var f := BuiltFrame(p);
      && |f| == HEADER_SIZE + |p.payload| && f[12] == 8 && f[13] == 0
      && f[14..34] == IpHeader(p, IpCheck(p)) && f[26..34] == p.sourceIp + p.destinationIp && f[26..30] == p.sourceIp
      && f[34..] == Datagram(p, UdpCheck(p)) && f[34..36] == p.sourcePort && f[42..] == p.payload
  {
    hide IpCheck, UdpCheck;
    var f, e, i, d := BuiltFrame(p), EthHeader(p), IpHeader(p, IpCheck(p)), Datagram(p, UdpCheck(p));
    assert |e| == 14 && |i| == 20 && |d| == 8 + |p.payload|;
    assert f[14..34] == i && f[34..] == d;
    assert i[12..20] == p.sourceIp + p.destinationIp && i[12..16] == p.sourceIp;
    assert f[26..34] == f[14..34][12..20] && f[26..30] == f[14..34][12..16];
    assert d[0..2] == p.sourcePort && d[8..] == p.payload;
    assert f[34..36] == f[34..][0..2] && f[42..] == f[34..][8..];
  }

  lemma IpFields(p: Params, check: nat)
    requires Sized(p) && |p.payload| <= 65535 - IP_SIZE - UDP_SIZE
    ensures var h := IpHeader(p, check);
      |h| == 20 && h[0] == 0x45 && h[9] == UDP_PROTOCOL && Field(h, 2) == 28 + |p.payload| && Field(h, 6) == 0
  {
    HalvesIs(28 + |p.payload|);
  }

  lemma UdpFields(p: Params, check: nat)
    requires Sized(p) && |p.payload| <= 65535 - IP_SIZE - UDP_SIZE && check < WORD
    ensures var d := Datagram(p, check);
      && |d| == 8 + |p.payload| && Field(d, 2) == Field(p.destinationPort, 0) && Field(d, 4) == 8 + |p.payload|
      && Field(d, 6) == check
  {
    HalvesIs(8 + |p.payload|);
    HalvesIs(check);
  }

  /** Parsing a built frame with the matching port accepts it and gives back the payload and the
      sender. */
  lemma FrameRoundTrip(p: Params, capacity: nat)
    requires Sized(p) && Fits(p, capacity)
    ensures ParseFrame(BuiltFrame(p), capacity, Field(p.destinationPort, 0)) ==
      Some(Parsed(p.payload, capacity - HEADER_SIZE, p.sourceIp, p.sourcePort, HEADER_SIZE, false))
  {
    hide IpCheck, UdpCheck, BuiltFrame, IpHeader, Datagram, Checksum, UdpChecksum, Field;
    var f := BuiltFrame(p);
    BuiltParts(p);
    UdpVerifies(p);
    IpVerifies(p);
    IpFields(p, IpCheck(p));
    UdpFields(p, UdpCheck(p));
    SliceField(f, 14, 34, 2);
    SliceField(f, 14, 34, 6);
    assert f[14] == f[14..34][0] && f[23] == f[14..34][9];
    assert f[34..|f|] == f[34..];
    SliceField(f, 34, |f|, 2);
    SliceField(f, 34, |f|, 4);
    SliceField(f, 34, |f|, 6);
    EthField(f);
    assert f[42..|f|] == f[42..];
  }

  lemma EthField(f: seq<Byte>)
    requires |f| >= 14 && f[12] == 8 && f[13] == 0
    ensures Field(f, 12) == 0x0800
  {
  }

  // ------------------------------------------------------------------------- the buffer

  method UdpChecksumOf(ips: seq<Byte>, udp: seq<Byte>) returns (checksum: nat)
    ensures checksum == UdpChecksum(ips, udp)
  {
    hide AddBytes, Finish;
    var state := new ChecksumState();
    state.Add(ips);
    state.Add([0, UDP_PROTOCOL]);
    state.Add(Halves(|udp|));
    state.Add(udp);
    SumStaysSmall(START, ips);
    SumStaysSmall(AddBytes(START, ips), [0, UDP_PROTOCOL]);
    SumStaysSmall(AddBytes(AddBytes(START, ips), [0, UDP_PROTOCOL]), Halves(|udp|));
    SumStaysSmall(AddBytes(AddBytes(AddBytes(START, ips), [0, UDP_PROTOCOL]), Halves(|udp|)), udp);
    checksum := state.Done();
  }

  /** Builds a frame in place: headers with empty checksums, payload, then the UDP checksum over
      what is in the buffer.  Nothing behind the frame is touched. */
  method BuildFrame(buffer: array<Byte>, p: Params) returns (len: Option<nat>)
    requires Sized(p)
    modifies buffer
    ensures len == if Fits(p, buffer.Length) then Some(HEADER_SIZE + |p.payload|) else None
    ensures buffer[..] == if len.Some? then BuiltFrame(p) + old(buffer[..])[len.value..] else old(buffer[..])
  {
    hide Checksum, UdpChecksum, Put, UdpFront, EthHeader, IpHeader;
    if |p.payload| == 0 || |p.payload| > 65535 - IP_SIZE - UDP_SIZE { return None; }
    if |p.payload| > buffer.Length || HEADER_SIZE > buffer.Length - |p.payload| { return None; }
    HeaderSizes(p);
    ghost var was := buffer[..];
    var eth := EthHeader(p);
    CopyTo(buffer, 0, eth);
    var ipCheck := ChecksumOf(IpHeader(p, 0));
    var ip := IpHeader(p, ipCheck);
    CopyTo(buffer, ETH_SIZE, ip);
    var front := UdpFront(p);
    CopyTo(buffer, 34, front + [0, 0]);
    CopyTo(buffer, HEADER_SIZE, p.payload);
    FourParts(was, eth, ip, front + [0, 0], p.payload);
    var udpLen := UDP_SIZE + |p.payload|;
    assert buffer[34..34 + udpLen] == Datagram(p, 0);
    var udpCheck := UdpChecksumOf(p.sourceIp + p.destinationIp, buffer[34..34 + udpLen]);
    if udpCheck == 0 { udpCheck := 0xffff; }
    ghost var before := buffer[..];
    CopyTo(buffer, 34, front + Halves(udpCheck));
    PutLast(before, eth + ip, front + [0, 0], p.payload + was[HEADER_SIZE + |p.payload|..], front + Halves(udpCheck));
    len := Some(HEADER_SIZE + |p.payload|);
    assert buffer[..] == eth + ip + (front + Halves(udpCheck)) + (p.payload + was[HEADER_SIZE + |p.payload|..]);
    assert Datagram(p, udpCheck) == front + Halves(udpCheck) + p.payload;
    assert BuiltFrame(p) == eth + ip + Datagram(p, udpCheck);
    assert buffer[..] == BuiltFrame(p) + was[HEADER_SIZE + |p.payload|..];
  }

  lemma HeaderSizes(p: Params)
    requires Sized(p)
    ensures |EthHeader(p)| == 14 && (forall c: nat :: |IpHeader(p, c)| == 20) && |UdpFront(p)| == 6
  {
  }

  /** Four pieces written one behind the other. */
  lemma FourParts(was: seq<Byte>, a: seq<Byte>, b: seq<Byte>, c: seq<Byte>, d: seq<Byte>)
    requires |a| + |b| + |c| + |d| <= |was|
    ensures |Put(was, 0, a)| == |was| && |Put(Put(was, 0, a), |a|, b)| == |was|
    ensures |Put(Put(Put(was, 0, a), |a|, b), |a| + |b|, c)| == |was|
    ensures Put(Put(Put(Put(was, 0, a), |a|, b), |a| + |b|, c), |a| + |b| + |c|, d) ==
      a + b + c + (d + was[|a| + |b| + |c| + |d|..])
  {
    hide Put;
    assert was == [] + was;
    PutNext(was, [], was, a);
    assert [] + a == a;
    PutNext(a + was[|a|..], a, was[|a|..], b);
    PutNext(a + b + was[|a|..][|b|..], a + b, was[|a|..][|b|..], c);
    PutNext(a + b + c + was[|a|..][|b|..][|c|..], a + b + c, was[|a|..][|b|..][|c|..], d);
    assert was[|a|..][|b|..][|c|..][|d|..] == was[|a| + |b| + |c| + |d|..];
    assert a + b + c + d + was[|a| + |b| + |c| + |d|..] == a + b + c + (d + was[|a| + |b| + |c| + |d|..]);
  }
}

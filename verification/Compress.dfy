/**
ZDP header compression (adapter/ph/src/compress.rs): the values the in-place operations compute.

Compression drops the header fields a receiver can rebuild from the flow's five-tuple and from
the body length; expansion rebuilds them. `Rebuilt` is the round trip written as a rewrite of the
original packet, and `Consistent` says field by field when that rewrite changes nothing.
*/
module Compress {
  import opened Bytes
  import opened InternetChecksum
  import opened Classifier

  /** "Present" means present in the traffic classifier, hence absent from the compressed packet. */
  datatype CompressionMode = CompressionMode(srcPort: bool, dstPort: bool) {
    function CarriedPortBytes(): nat {
      (if srcPort then 0 else 2) + (if dstPort then 0 else 2)
    }
  }

  // ---------------------------------------------------------------- transport headers

  /** What the compressor's reads demand of the bytes behind the IP header. */
  predicate L4Compressible(l4: byte, n: nat) {
    (l4 == TCP ==> n >= 18) && (l4 == UDP ==> n >= 6)
  }

  predicate L4Expandable(mode: CompressionMode, l4: byte, n: nat) {
    && (l4 == TCP ==> n >= mode.CarriedPortBytes() + 14)
    && (l4 == UDP ==> n >= mode.CarriedPortBytes() + 2)
  }

  function CarriedPorts(mode: CompressionMode, b: seq<byte>): (r: seq<byte>)
    requires |b| >= 4
    ensures |r| == mode.CarriedPortBytes()
  {
    (if mode.srcPort then [] else b[..2]) + (if mode.dstPort then [] else b[2..4])
  }

  /** The four port bytes a receiver puts back. */
  function RestoredPorts(mode: CompressionMode, ft: FiveTuple, c: seq<byte>): (r: seq<byte>)
    requires |c| >= mode.CarriedPortBytes()
    ensures |r| == 4
  {
    var dstAt := if mode.srcPort then 0 else 2;
    (if mode.srcPort then Be16(ft.srcPort) else c[..2]) +
    (if mode.dstPort then Be16(ft.dstPort) else c[dstAt..dstAt + 2])
  }

  function CompressedL4(mode: CompressionMode, l4: byte, b: seq<byte>): (c: seq<byte>)
    requires L4Compressible(l4, |b|)
  {
    if l4 == TCP then CarriedPorts(mode, b) + (b[4..16] + b[18..])
    else if l4 == UDP then CarriedPorts(mode, b) + b[6..]
    else b
  }

  function WithTcpChecksum(ft: FiveTuple, zeroed: seq<byte>): (r: seq<byte>)
    requires |zeroed| >= 20
    ensures |r| == |zeroed|
  {
    Patch(zeroed, 16, Be16(L4Checksum(ft, TCP, zeroed)))
  }

  /** How long `n` compressed bytes behind the IP header become. */
  function ExpandedL4Length(mode: CompressionMode, l4: byte, n: nat): int {
    if l4 == TCP || l4 == UDP then n - mode.CarriedPortBytes() + 6 else n
  }

  function ExpandedL4(mode: CompressionMode, ft: FiveTuple, c: seq<byte>): (b: seq<byte>)
    requires L4Expandable(mode, ft.l4, |c|)
    ensures |b| == ExpandedL4Length(mode, ft.l4, |c|)
  {
    if ft.l4 == TCP then
      var rest := c[mode.CarriedPortBytes()..];
      WithTcpChecksum(ft, RestoredPorts(mode, ft, c) + (rest[..12] + ([0, 0] + rest[12..])))
    else if ft.l4 == UDP then
      var rest := c[mode.CarriedPortBytes()..];
      RestoredPorts(mode, ft, c) + (Be16((|rest| + 6) % 0x1_0000) + rest)
    else c
  }

  function RebuiltPorts(mode: CompressionMode, ft: FiveTuple, b: seq<byte>): (r: seq<byte>)
    requires |b| >= 4
    ensures |r| == 4
  {
    (if mode.srcPort then Be16(ft.srcPort) else b[..2]) + (if mode.dstPort then Be16(ft.dstPort) else b[2..4])
  }

  function RebuiltL4(mode: CompressionMode, ft: FiveTuple, b: seq<byte>): (r: seq<byte>)
    requires L4Compressible(ft.l4, |b|) && (ft.l4 == TCP ==> |b| >= 20) && (ft.l4 == UDP ==> |b| >= 8)
    ensures |r| == |b|
  {
    if ft.l4 == TCP then
      WithTcpChecksum(ft, RebuiltPorts(mode, ft, b) + (b[4..16] + ([0, 0] + b[18..])))
    else if ft.l4 == UDP then
      RebuiltPorts(mode, ft, b) + (Be16(|b| % 0x1_0000) + b[6..])
    else b
  }

  ghost predicate L4Consistent(mode: CompressionMode, ft: FiveTuple, b: seq<byte>)
    requires (ft.l4 == TCP ==> |b| >= 20) && (ft.l4 == UDP ==> |b| >= 8)
  {
    ft.l4 == TCP || ft.l4 == UDP ==>
      && (mode.srcPort ==> Word(b, 0) == ft.srcPort)
      && (mode.dstPort ==> Word(b, 2) == ft.dstPort)
      && (ft.l4 == TCP ==> Word(b, 16) == L4Checksum(ft, TCP, Patch(b, 16, [0, 0])))
      && (ft.l4 == UDP ==> Word(b, 4) == |b| % 0x1_0000)
  }

  lemma PortsRoundTrip(mode: CompressionMode, ft: FiveTuple, b: seq<byte>, rest: seq<byte>)
    requires |b| >= 4
    ensures RestoredPorts(mode, ft, CarriedPorts(mode, b) + rest) == RebuiltPorts(mode, ft, b)
    ensures (CarriedPorts(mode, b) + rest)[mode.CarriedPortBytes()..] == rest
  {
  }

  lemma L4RoundTrip(mode: CompressionMode, ft: FiveTuple, b: seq<byte>)
    requires (ft.l4 == TCP ==> |b| >= 20) && (ft.l4 == UDP ==> |b| >= 8)
    ensures L4Expandable(mode, ft.l4, |CompressedL4(mode, ft.l4, b)|)
    ensures ExpandedL4(mode, ft, CompressedL4(mode, ft.l4, b)) == RebuiltL4(mode, ft, b)
  {
    if ft.l4 == TCP {
      TcpRoundTrip(mode, ft, b);
    } else if ft.l4 == UDP {
      PortsRoundTrip(mode, ft, b, b[6..]);
    }
  }

  lemma TcpRoundTrip(mode: CompressionMode, ft: FiveTuple, b: seq<byte>)
    requires ft.l4 == TCP && |b| >= 20
    ensures ExpandedL4(mode, ft, CompressedL4(mode, ft.l4, b)) == RebuiltL4(mode, ft, b)
  {
    var rest := b[4..16] + b[18..];
    PortsRoundTrip(mode, ft, b, rest);
    assert rest[..12] == b[4..16] && rest[12..] == b[18..];
  }

  lemma SamePorts(mode: CompressionMode, ft: FiveTuple, b: seq<byte>)
    requires |b| >= 4
    ensures RebuiltPorts(mode, ft, b) == b[..4]
       <==> (mode.srcPort ==> Word(b, 0) == ft.srcPort) && (mode.dstPort ==> Word(b, 2) == ft.dstPort)
  {
    var r := RebuiltPorts(mode, ft, b);
    Be16OfWord(b, 0);
    Be16OfWord(b, 2);
    assert b[..4] == b[0..2] + b[2..4];
    if r == b[..4] {
      assert r[..2] == b[0..2] && r[2..] == b[2..4];
      WordOfBe16(ft.srcPort);
      WordOfBe16(ft.dstPort);
    }
  }

  lemma L4RebuiltIff(mode: CompressionMode, ft: FiveTuple, b: seq<byte>)
    requires (ft.l4 == TCP ==> |b| >= 20) && (ft.l4 == UDP ==> |b| >= 8)
    ensures RebuiltL4(mode, ft, b) == b <==> L4Consistent(mode, ft, b)
  {
    if ft.l4 == TCP {
      SamePorts(mode, ft, b);
      TcpRebuiltIff(ft, RebuiltPorts(mode, ft, b), b);
    } else if ft.l4 == UDP {
      var r := RebuiltL4(mode, ft, b);
      SamePorts(mode, ft, b);
      Be16OfWord(b, 4);
      WordOfBe16(|b| % 0x1_0000);
      assert r[..4] == RebuiltPorts(mode, ft, b) && r[4..6] == Be16(|b| % 0x1_0000) && r[6..] == b[6..];
      assert b == b[..4] + b[4..6] + b[6..];
    }
  }

  lemma TcpRebuiltIff(ft: FiveTuple, ports: seq<byte>, b: seq<byte>)
    requires |ports| == 4 && |b| >= 20
    ensures WithTcpChecksum(ft, ports + (b[4..16] + ([0, 0] + b[18..]))) == b
       <==> ports == b[..4] && Word(b, 16) == L4Checksum(ft, TCP, Patch(b, 16, [0, 0]))
  {
    var zeroed := ports + (b[4..16] + ([0, 0] + b[18..]));
    var r := WithTcpChecksum(ft, zeroed);
    var checksum := Be16(L4Checksum(ft, TCP, zeroed));
    assert r == ports + b[4..16] + checksum + b[18..];
    assert r[..4] == ports && r[16..18] == checksum;
    assert b == b[..4] + b[4..16] + b[16..18] + b[18..];
    Be16OfWord(b, 16);
    WordOfBe16(L4Checksum(ft, TCP, zeroed));
    if ports == b[..4] {
      assert zeroed == Patch(b, 16, [0, 0]);
    }
  }

  // ---------------------------------------------------------------- IPv6

  function CompressedIpv6(mode: CompressionMode, l4: byte, b: seq<byte>): (c: seq<byte>)
    requires |b| >= 40 && L4Compressible(l4, |b| - 40)
  {
    (b[..4] + [b[7]]) + CompressedL4(mode, l4, b[40..])
  }

  function FreshIpv6Header(ft: FiveTuple, first: seq<byte>, len: nat, hopLimit: byte): (h: seq<byte>)
    requires |first| == 4
    ensures |h| == 40
  {
    first + Be16(len % 0x1_0000) + [ft.l4, hopLimit] + ft.src + ft.dst
  }

  function ExpandedIpv6(mode: CompressionMode, ft: FiveTuple, c: seq<byte>): (b: seq<byte>)
    requires |c| >= 5 && L4Expandable(mode, ft.l4, |c| - 5)
    ensures |b| == 40 + ExpandedL4Length(mode, ft.l4, |c| - 5)
  {
    var body := ExpandedL4(mode, ft, c[5..]);
    FreshIpv6Header(ft, c[..4], |body|, c[4]) + body
  }

  function RebuiltIpv6(mode: CompressionMode, ft: FiveTuple, b: seq<byte>): (r: seq<byte>)
    requires |b| >= 40 && (ft.l4 == TCP ==> |b| >= 60) && (ft.l4 == UDP ==> |b| >= 48)
    ensures |r| == |b|
  {
    FreshIpv6Header(ft, b[..4], |b| - 40, b[7]) + RebuiltL4(mode, ft, b[40..])
  }

  lemma Ipv6RebuiltIff(mode: CompressionMode, ft: FiveTuple, b: seq<byte>)
    requires |b| >= 40 && (ft.l4 == TCP ==> |b| >= 60) && (ft.l4 == UDP ==> |b| >= 48)
    ensures RebuiltIpv6(mode, ft, b) == b
       <==> && Word(b, 4) == (|b| - 40) % 0x1_0000 && b[6] == ft.l4
            && b[8..24] == ft.src && b[24..40] == ft.dst && L4Consistent(mode, ft, b[40..])
  {
    var h, body := FreshIpv6Header(ft, b[..4], |b| - 40, b[7]), RebuiltL4(mode, ft, b[40..]);
    L4RebuiltIff(mode, ft, b[40..]);
    Ipv6HeaderIff(ft, b);
    assert (h + body)[..40] == h && (h + body)[40..] == body;
    assert b == b[..40] + b[40..];
  }

  lemma Ipv6HeaderIff(ft: FiveTuple, b: seq<byte>)
    requires |b| >= 40
    ensures FreshIpv6Header(ft, b[..4], |b| - 40, b[7]) == b[..40]
       <==> Word(b, 4) == (|b| - 40) % 0x1_0000 && b[6] == ft.l4 && b[8..24] == ft.src && b[24..40] == ft.dst
  {
    var h := FreshIpv6Header(ft, b[..4], |b| - 40, b[7]);
    Be16OfWord(b, 4);
    WordOfBe16((|b| - 40) % 0x1_0000);
    assert h[4..6] == Be16((|b| - 40) % 0x1_0000) && h[6] == ft.l4 && h[8..24] == ft.src && h[24..40] == ft.dst;
    assert b[..40][4..6] == b[4..6] && b[..40][6] == b[6] && b[..40][8..24] == b[8..24] && b[..40][24..40] == b[24..40];
    assert b[..40] == b[..4] + b[4..6] + [b[6], b[7]] + b[8..24] + b[24..40];
  }

  // ---------------------------------------------------------------- IPv4

  /** Bitwise or of two three-bit values. */
  function Or3(a: int, b: int): int {
    (if a / 4 % 2 + b / 4 % 2 > 0 then 4 else 0) +
    (if a / 2 % 2 + b / 2 % 2 > 0 then 2 else 0) +
    (if a % 2 + b % 2 > 0 then 1 else 0)
  }

  /** A fragment offset with three flag bits put on top. */
  function WithFlags(carried: u16, flags: byte): u16
    requires flags < 8
  {
    carried % 0x2000 + 0x2000 * Or3(carried / 0x2000, flags)
  }

  lemma WithFlagsRestores(word: u16)
    ensures WithFlags(word % 0x2000, word / 0x2000) == word
  {
    OrWithZero(word / 0x2000);
    assert word % 0x2000 / 0x2000 == 0;
  }

  function CompressedIpv4(mode: CompressionMode, l4: byte, b: seq<byte>): (c: seq<byte>)
    requires |b| >= 20 && L4Compressible(l4, |b| - 20)
  {
    WithIpv4Fields(b[..20], CompressedL4(mode, l4, b[20..]))
  }

  /** The fields kept of an IPv4 header, in front of the rest of the packet. */
  function WithIpv4Fields(header: seq<byte>, rest: seq<byte>): (c: seq<byte>)
    requires |header| == 20
  {
    var offset := Word(header, 6) % 0x2000;
    var flags: byte := header[0] % 16 * 16 + (if offset != 0 then 8 else 0) + Word(header, 6) / 0x2000;
    var carried := [header[8]] + rest;
    [flags, header[1]] + (header[4..6] + (if offset != 0 then Be16(offset) + carried else carried))
  }

  /** Length of the compressed IPv4 header that starts with this flag byte. */
  function CompressedIpv4HeaderLength(flags: byte): nat {
    if flags / 8 % 2 == 1 then 7 else 5
  }

  predicate Ipv4Expandable(mode: CompressionMode, ft: FiveTuple, c: seq<byte>) {
    && |c| >= 1
    && var h := CompressedIpv4HeaderLength(c[0]);
      && |c| >= h
      && L4Expandable(mode, ft.l4, |c| - h)
      && c[0] / 16 * 4 <= 20 + ExpandedL4Length(mode, ft.l4, |c| - h)
  }

  /** The IPv4 header expansion writes, its checksum field still zero. */
  function FreshIpv4Header(ft: FiveTuple, hl: byte, tos: byte, len: nat, id: seq<byte>, fragment: u16, ttl: byte)
    : (h: seq<byte>)
    requires hl < 16 && |id| == 2
    ensures |h| == 20
  {
    [0x40 + hl, tos] + Be16(len % 0x1_0000) + id + Be16(fragment) + [ttl, ft.l4, 0, 0] +
    ReadAsV4(ft.src) + ReadAsV4(ft.dst)
  }

  function WithIpv4Checksum(zeroed: seq<byte>, headerLength: nat): (r: seq<byte>)
    requires |zeroed| >= 20 && headerLength <= |zeroed|
    ensures |r| == |zeroed|
  {
    Patch(zeroed, 10, Be16(Checksum(zeroed[..headerLength])))
  }

  /** A whole IPv4 packet around `body`, its header checksum computed. */
  function FreshIpv4Packet(
    ft: FiveTuple, hl: byte, tos: byte, id: seq<byte>, fragment: u16, ttl: byte, body: seq<byte>): (r: seq<byte>)
    requires hl < 16 && |id| == 2 && hl * 4 <= 20 + |body|
    ensures |r| == 20 + |body|
  {
    WithIpv4Checksum(FreshIpv4Header(ft, hl, tos, |body| + 20, id, fragment, ttl) + body, hl * 4)
  }

  function ExpandedIpv4(mode: CompressionMode, ft: FiveTuple, c: seq<byte>): (b: seq<byte>)
    requires Ipv4Expandable(mode, ft, c)
    ensures |b| == 20 + ExpandedL4Length(mode, ft.l4, |c| - CompressedIpv4HeaderLength(c[0]))
  {
    var h := CompressedIpv4HeaderLength(c[0]);
    var carried: u16 := if h == 7 then Word(c, 4) else 0;
    FreshIpv4Packet(
      ft, c[0] / 16, c[1], c[2..4], WithFlags(carried, c[0] % 8), c[h - 1], ExpandedL4(mode, ft, c[h..]))
  }

  function RebuiltIpv4(mode: CompressionMode, ft: FiveTuple, b: seq<byte>): (r: seq<byte>)
    requires |b| >= 20 && (ft.l4 == TCP ==> |b| >= 40) && (ft.l4 == UDP ==> |b| >= 28)
    requires b[0] % 16 * 4 <= |b|
    ensures |r| == |b|
  {
    FreshIpv4Packet(ft, b[0] % 16, b[1], b[4..6], Word(b, 6), b[8], RebuiltL4(mode, ft, b[20..]))
  }

  lemma Ipv4FlagByte(b: seq<byte>)
    requires |b| >= 20
    ensures var flags := b[0] % 16 * 16 + (if Word(b, 6) % 0x2000 != 0 then 8 else 0) + Word(b, 6) / 0x2000;
            && 0 <= flags < 256 && flags / 16 == b[0] % 16 && flags % 8 == Word(b, 6) / 0x2000
            && (flags / 8 % 2 == 1 <==> Word(b, 6) % 0x2000 != 0)
  {
    var hl, top := b[0] % 16, Word(b, 6) / 0x2000;
    var present := if Word(b, 6) % 0x2000 != 0 then 1 else 0;
    var flags := hl * 16 + present * 8 + top;
    assert 0 <= top < 8;
    assert flags / 8 == hl * 2 + present;
  }

  /** The part of a compressed IPv4 header whose length is fixed. */
  lemma FixedFields(header: seq<byte>, rest: seq<byte>)
    requires |header| == 20
    ensures var c := WithIpv4Fields(header, rest);
            && |c| >= 5 && c[0] / 16 == header[0] % 16 && c[0] % 8 == Word(header, 6) / 0x2000
            && (c[0] / 8 % 2 == 1 <==> Word(header, 6) % 0x2000 != 0)
            && c[1] == header[1] && c[2..4] == header[4..6]
  {
    Ipv4FlagByte(header);
  }

  /** The part behind it, with or without a fragment offset. */
  lemma CarriedFields(header: seq<byte>, rest: seq<byte>)
    requires |header| == 20
    ensures var c := WithIpv4Fields(header, rest);
            var h := CompressedIpv4HeaderLength(c[0]);
            && |c| >= h && c[h - 1] == header[8] && c[h..] == rest
            && (h == 7 ==> Word(c, 4) == Word(header, 6) % 0x2000)
  {
    FixedFields(header, rest);
    var c := WithIpv4Fields(header, rest);
    var offset := Word(header, 6) % 0x2000;
    if offset != 0 {
      assert c == [c[0], c[1], c[2], c[3]] + (Be16(offset) + ([header[8]] + rest));
      assert c[4] == Be16(offset)[0] && c[5] == Be16(offset)[1];
      WordOfBe16(offset);
    } else {
      assert c == [c[0], c[1], c[2], c[3]] + ([header[8]] + rest);
    }
  }

  /** Where the compressed IPv4 header keeps each field. */
  lemma Ipv4CompressedFields(mode: CompressionMode, l4: byte, b: seq<byte>)
    requires |b| >= 20 && L4Compressible(l4, |b| - 20)
    ensures var c := CompressedIpv4(mode, l4, b);
            && |c| >= 5 && c[0] / 16 == b[0] % 16 && c[0] % 8 == Word(b, 6) / 0x2000
            && (c[0] / 8 % 2 == 1 <==> Word(b, 6) % 0x2000 != 0)
            && c[1] == b[1] && c[2..4] == b[4..6]
    ensures var c := CompressedIpv4(mode, l4, b);
            var h := CompressedIpv4HeaderLength(c[0]);
            && |c| >= h && c[h - 1] == b[8] && c[h..] == CompressedL4(mode, l4, b[20..])
            && (h == 7 ==> Word(c, 4) == Word(b, 6) % 0x2000)
  {
    FixedFields(b[..20], CompressedL4(mode, l4, b[20..]));
    CarriedFields(b[..20], CompressedL4(mode, l4, b[20..]));
    assert b[..20][4..6] == b[4..6];
  }

  lemma Ipv4RoundTrip(mode: CompressionMode, ft: FiveTuple, b: seq<byte>)
    requires |b| >= 20 && (ft.l4 == TCP ==> |b| >= 40) && (ft.l4 == UDP ==> |b| >= 28)
    requires b[0] % 16 * 4 <= |b|
    ensures Ipv4Expandable(mode, ft, CompressedIpv4(mode, ft.l4, b))
    ensures ExpandedIpv4(mode, ft, CompressedIpv4(mode, ft.l4, b)) == RebuiltIpv4(mode, ft, b)
  {
    var c := CompressedIpv4(mode, ft.l4, b);
    Ipv4CompressedFields(mode, ft.l4, b);
    L4RoundTrip(mode, ft, b[20..]);
    WithFlagsRestores(Word(b, 6));
  }

  lemma OrWithZero(b: int)
    requires 0 <= b < 8
    ensures Or3(0, b) == b
  {
    assert b == 0 || b == 1 || b == 2 || b == 3 || b == 4 || b == 5 || b == 6 || b == 7;
  }

  lemma Ipv4RebuiltIff(mode: CompressionMode, ft: FiveTuple, b: seq<byte>)
    requires |b| >= 20 && (ft.l4 == TCP ==> |b| >= 40) && (ft.l4 == UDP ==> |b| >= 28)
    requires b[0] % 16 * 4 <= |b|
    ensures RebuiltIpv4(mode, ft, b) == b
       <==> && b[0] / 16 == 4 && Word(b, 2) == |b| % 0x1_0000 && b[9] == ft.l4
            && b[12..16] == ReadAsV4(ft.src) && b[16..20] == ReadAsV4(ft.dst)
            && L4Consistent(mode, ft, b[20..])
            && Word(b, 10) == Checksum(Patch(b, 10, [0, 0])[..b[0] % 16 * 4])
  {
    var hl := b[0] % 16;
    var header := FreshIpv4Header(ft, hl, b[1], |b|, b[4..6], Word(b, 6), b[8]);
    var body := RebuiltL4(mode, ft, b[20..]);
    var checksum := Checksum((header + body)[..hl * 4]);
    Ipv4HeaderIff(ft, b);
    L4RebuiltIff(mode, ft, b[20..]);
    Be16OfWord(b, 10);
    WordOfBe16(checksum);
    PatchedIff(header, body, Be16(checksum), b);
    if header[..10] == b[..10] && header[12..] == b[12..20] && body == b[20..] {
      ZeroedPacket(header, b);
    }
  }

  lemma ZeroedPacket(header: seq<byte>, b: seq<byte>)
    requires |header| == 20 && |b| >= 20 && header[10..12] == [0, 0]
    requires header[..10] == b[..10] && header[12..] == b[12..20]
    ensures header + b[20..] == Patch(b, 10, [0, 0])
  {
    assert header == header[..10] + header[10..12] + header[12..];
  }

  lemma PatchedIff(header: seq<byte>, body: seq<byte>, field: seq<byte>, b: seq<byte>)
    requires |header| == 20 && |field| == 2 && |b| == 20 + |body|
    ensures Patch(header + body, 10, field) == b
       <==> header[..10] == b[..10] && field == b[10..12] && header[12..] == b[12..20] && body == b[20..]
  {
    var r := Patch(header + body, 10, field);
    assert r == header[..10] + field + header[12..] + body;
    assert b == b[..10] + b[10..12] + b[12..20] + b[20..];
    assert r[..10] == header[..10] && r[10..12] == field && r[12..20] == header[12..] && r[20..] == body;
  }

  /** The rebuilt header agrees with the original outside the checksum exactly when the named fields do. */
  lemma Ipv4HeaderIff(ft: FiveTuple, b: seq<byte>)
    requires |b| >= 20
    ensures var h := FreshIpv4Header(ft, b[0] % 16, b[1], |b|, b[4..6], Word(b, 6), b[8]);
            (h[..10] == b[..10] && h[12..] == b[12..20])
            <==>
            && b[0] / 16 == 4 && Word(b, 2) == |b| % 0x1_0000 && b[9] == ft.l4
            && b[12..16] == ReadAsV4(ft.src) && b[16..20] == ReadAsV4(ft.dst)
  {
    var h := FreshIpv4Header(ft, b[0] % 16, b[1], |b|, b[4..6], Word(b, 6), b[8]);
    Be16OfWord(b, 2);
    Be16OfWord(b, 6);
    WordOfBe16(|b| % 0x1_0000);
    assert h[..10] == [0x40 + b[0] % 16, b[1]] + Be16(|b| % 0x1_0000) + b[4..6] + b[6..8] + [b[8], ft.l4];
    assert b[..10] == [b[0], b[1]] + b[2..4] + b[4..6] + b[6..8] + [b[8], b[9]];
    assert h[..10][0] == 0x40 + b[0] % 16 && h[..10][2..4] == Be16(|b| % 0x1_0000) && h[..10][9] == ft.l4;
    assert b[..10][0] == b[0] && b[..10][2..4] == b[2..4] && b[..10][9] == b[9];
    assert h[12..][..4] == ReadAsV4(ft.src) && h[12..][4..] == ReadAsV4(ft.dst);
    assert b[12..20][..4] == b[12..16] && b[12..20][4..] == b[16..20];
    assert b[12..20] == b[12..16] + b[16..20];
  }

  // ---------------------------------------------------------------- packets

  /** What compression demands of a packet of `n` bytes. */
  predicate Compressible(l3: L3Type, l4: byte, n: nat) {
    match l3
    case Ipv4 => n >= 20 && L4Compressible(l4, n - 20)
    case Ipv6 => n >= 40 && L4Compressible(l4, n - 40)
    case NoL3 => true
  }

  predicate Expandable(mode: CompressionMode, ft: FiveTuple, c: seq<byte>) {
    match ft.l3
    case Ipv4 => Ipv4Expandable(mode, ft, c)
    case Ipv6 => |c| >= 5 && L4Expandable(mode, ft.l4, |c| - 5)
    case NoL3 => true
  }

  function Compressed(mode: CompressionMode, l3: L3Type, l4: byte, b: seq<byte>): (c: seq<byte>)
    requires Compressible(l3, l4, |b|)
  {
    match l3
    case Ipv4 => CompressedIpv4(mode, l4, b)
    case Ipv6 => CompressedIpv6(mode, l4, b)
    case NoL3 => b
  }

  function Expanded(mode: CompressionMode, ft: FiveTuple, c: seq<byte>): (b: seq<byte>)
    requires Expandable(mode, ft, c)
  {
    match ft.l3
    case Ipv4 => ExpandedIpv4(mode, ft, c)
    case Ipv6 => ExpandedIpv6(mode, ft, c)
    case NoL3 => c
  }

  /** Long enough to be compressed and expanded again. */
  predicate FullHeaders(ft: FiveTuple, b: seq<byte>) {
    match ft.l3
    case Ipv4 =>
      && |b| >= 20 && (ft.l4 == TCP ==> |b| >= 40) && (ft.l4 == UDP ==> |b| >= 28)
      && b[0] % 16 * 4 <= |b|
    case Ipv6 => |b| >= 40 && (ft.l4 == TCP ==> |b| >= 60) && (ft.l4 == UDP ==> |b| >= 48)
    case NoL3 => true
  }

  function Rebuilt(mode: CompressionMode, ft: FiveTuple, b: seq<byte>): (r: seq<byte>)
    requires FullHeaders(ft, b)
    ensures |r| == |b|
  {
    match ft.l3
    case Ipv4 => RebuiltIpv4(mode, ft, b)
    case Ipv6 => RebuiltIpv6(mode, ft, b)
    case NoL3 => b
  }

  /** Every field that compression drops holds the value expansion will put there. */
  ghost predicate Consistent(mode: CompressionMode, ft: FiveTuple, b: seq<byte>)
    requires FullHeaders(ft, b)
  {
    match ft.l3
    case Ipv4 =>
      && b[0] / 16 == 4 && Word(b, 2) == |b| % 0x1_0000 && b[9] == ft.l4
      && b[12..16] == ReadAsV4(ft.src) && b[16..20] == ReadAsV4(ft.dst)
      && L4Consistent(mode, ft, b[20..])
      && Word(b, 10) == Checksum(Patch(b, 10, [0, 0])[..b[0] % 16 * 4])
    case Ipv6 =>
      && Word(b, 4) == (|b| - 40) % 0x1_0000 && b[6] == ft.l4
      && b[8..24] == ft.src && b[24..40] == ft.dst && L4Consistent(mode, ft, b[40..])
    case NoL3 => true
  }

  lemma Ipv6RoundTrip(mode: CompressionMode, ft: FiveTuple, b: seq<byte>)
    requires |b| >= 40 && (ft.l4 == TCP ==> |b| >= 60) && (ft.l4 == UDP ==> |b| >= 48)
    ensures var c := CompressedIpv6(mode, ft.l4, b);
            && |c| >= 5 && L4Expandable(mode, ft.l4, |c| - 5)
            && ExpandedIpv6(mode, ft, c) == RebuiltIpv6(mode, ft, b)
  {
    L4RoundTrip(mode, ft, b[40..]);
    var c := CompressedIpv6(mode, ft.l4, b);
    assert c[..4] == b[..4] && c[4] == b[7] && c[5..] == CompressedL4(mode, ft.l4, b[40..]);
  }

  /** The round trip rewrites a packet of any content, and is the identity exactly on consistent ones. */
  lemma RoundTrip(mode: CompressionMode, ft: FiveTuple, b: seq<byte>)
    requires FullHeaders(ft, b)
    ensures Compressible(ft.l3, ft.l4, |b|)
    ensures var c := Compressed(mode, ft.l3, ft.l4, b);
            Expandable(mode, ft, c) && Expanded(mode, ft, c) == Rebuilt(mode, ft, b)
    ensures Rebuilt(mode, ft, b) == b <==> Consistent(mode, ft, b)
  {
    match ft.l3
    case Ipv4 =>
      Ipv4RoundTrip(mode, ft, b);
      Ipv4RebuiltIff(mode, ft, b);
    case Ipv6 =>
      Ipv6RoundTrip(mode, ft, b);
      Ipv6RebuiltIff(mode, ft, b);
    case NoL3 =>
  }


  // ---------------------------------------------------------------- the compressed format

  /** What is left of a transport header, and where. */
  lemma L4CompressedFields(mode: CompressionMode, l4: byte, b: seq<byte>)
    requires L4Compressible(l4, |b|)
    ensures var c, k := CompressedL4(mode, l4, b), mode.CarriedPortBytes();
            && (l4 == 6 ==> |c| == |b| - 6 + k && c[k..k + 12] == b[4..16] && c[k + 12..] == b[18..])
            && (l4 == 17 ==> |c| == |b| - 6 + k && c[k..] == b[6..])
            && (l4 == 6 || l4 == 17 ==>
                  && (!mode.srcPort ==> c[..2] == b[..2])
                  && (!mode.dstPort ==> c[k - 2..k] == b[2..4]))
            && (l4 != 6 && l4 != 17 ==> c == b)
    ensures mode.CarriedPortBytes()
         == match mode case CompressionMode(true, true) => 0 case CompressionMode(false, false) => 4 case _ => 2
  {
    if l4 == TCP {
      var ports, rest := CarriedPorts(mode, b), b[4..16] + b[18..];
      var c, k := CompressedL4(mode, l4, b), mode.CarriedPortBytes();
      assert c[k..] == rest && c[..k] == ports;
      assert c[k..k + 12] == rest[..12] && c[k + 12..] == rest[12..];
    } else if l4 == UDP {
      assert CompressedL4(mode, l4, b)[..mode.CarriedPortBytes()] == CarriedPorts(mode, b);
    }
  }

  /** What is left of an IPv6 header: version, class and flow, and the hop limit. */
  lemma Ipv6CompressedFields(mode: CompressionMode, l4: byte, b: seq<byte>)
    requires |b| >= 40 && L4Compressible(l4, |b| - 40)
    ensures var c := CompressedIpv6(mode, l4, b);
            |c| >= 5 && c[..4] == b[..4] && c[4] == b[7] && c[5..] == CompressedL4(mode, l4, b[40..])
  {
  }

  /** How short a packet may be: its IP header and its transport's ports and checksum. */
  lemma ShortestPacket(l3: L3Type, l4: byte, n: nat)
    requires l3 != NoL3
    ensures var ip := if l3 == Ipv6 then 40 else 20;
            Compressible(l3, l4, n) <==> n >= ip + (if l4 == 6 then 18 else if l4 == 17 then 6 else 0)
  {
  }

  /** And a compressed one: five header bytes for IPv6, the ports carried, and what is left of TCP or UDP. */
  lemma ShortestCompressed(mode: CompressionMode, ft: FiveTuple, c: seq<byte>)
    requires ft.l3 == Ipv6
    ensures var ports := (if mode.srcPort then 0 else 2) + (if mode.dstPort then 0 else 2);
            Expandable(mode, ft, c)
            <==> |c| >= 5 + (if ft.l4 == 6 then ports + 14 else if ft.l4 == 17 then ports + 2 else 0)
  {
  }
}

/**
The in-place operations of adapter/ph/src/compress.rs on a packet's own buffer, proved to compute
the values of module `Compress`. The end of the body never moves; its start moves by the change
in length.
*/
module CompressInPlace {
  import opened Bytes
  import opened InternetChecksum
  import opened Classifier
  import opened Compress
  import opened Packets

  method PushPorts(mode: CompressionMode, srcPort: u16, dstPort: u16, pkt: Packet)
    requires pkt.Valid() && mode.CarriedPortBytes() <= pkt.Headroom()
    modifies pkt, pkt.buf
    ensures pkt.Valid() && pkt.offset + pkt.len == old(pkt.offset + pkt.len)
    ensures pkt.Body() == CarriedPorts(mode, Be16(srcPort) + Be16(dstPort)) + old(pkt.Body())
  {
    if !mode.dstPort {
      pkt.PushHeader(Be16(dstPort));
    }
    if !mode.srcPort {
      pkt.PushHeader(Be16(srcPort));
    }
  }

  /** Moving twelve bytes up by two and dropping two from the front cuts the checksum out. */
  lemma ChecksumCut(b: seq<byte>)
    requires |b| >= 18
    ensures Patch(b[2..][2..], 2, b[2..][2..][0..12])[2..] == b[4..16] + b[18..]
  {
    assert b[2..][2..] == b[4..];
  }

  method CompressTcp(mode: CompressionMode, pkt: Packet)
    requires pkt.Valid() && pkt.len >= 18
    modifies pkt, pkt.buf
    ensures pkt.Valid() && pkt.offset + pkt.len == old(pkt.offset + pkt.len)
    ensures pkt.Body() == CompressedL4(mode, TCP, old(pkt.Body()))
  {
    ghost var b := pkt.Body();
    var srcPort := pkt.GetU16();
    var dstPort := pkt.GetU16();
    pkt.CopyWithin(0, 12, 2);
    pkt.Advance(2);
    ChecksumCut(b);
    PushPorts(mode, srcPort, dstPort, pkt);
    PortsOfPacket(b);
    assert CarriedPorts(mode, b[..4]) == CarriedPorts(mode, b);
  }

  method CompressUdp(mode: CompressionMode, pkt: Packet)
    requires pkt.Valid() && pkt.len >= 6
    modifies pkt, pkt.buf
    ensures pkt.Valid() && pkt.offset + pkt.len == old(pkt.offset + pkt.len)
    ensures pkt.Body() == CompressedL4(mode, UDP, old(pkt.Body()))
  {
    ghost var b := pkt.Body();
    var srcPort := pkt.GetU16();
    var dstPort := pkt.GetU16();
    pkt.Advance(2);
    PushPorts(mode, srcPort, dstPort, pkt);
    PortsOfPacket(b);
    assert CarriedPorts(mode, b[..4]) == CarriedPorts(mode, b);
  }

  lemma PortsOfPacket(b: seq<byte>)
    requires |b| >= 4
    ensures Be16(Word(b, 0)) + Be16(Word(b[2..], 0)) == b[..4]
  {
    Be16OfWord(b, 0);
    Be16OfWord(b[2..], 0);
  }

  method CompressL4(mode: CompressionMode, l4: byte, pkt: Packet)
    requires pkt.Valid() && L4Compressible(l4, pkt.len)
    modifies pkt, pkt.buf
    ensures pkt.Valid() && pkt.offset + pkt.len == old(pkt.offset + pkt.len)
    ensures pkt.Body() == CompressedL4(mode, l4, old(pkt.Body()))
  {
    if l4 == TCP {
      CompressTcp(mode, pkt);
    } else if l4 == UDP {
      CompressUdp(mode, pkt);
    }
  }

  method CompressIpv6(mode: CompressionMode, l4: byte, pkt: Packet)
    requires pkt.Valid() && pkt.len >= 40 && L4Compressible(l4, pkt.len - 40)
    modifies pkt, pkt.buf
    ensures pkt.Valid() && pkt.offset + pkt.len == old(pkt.offset + pkt.len)
    ensures pkt.Body() == CompressedIpv6(mode, l4, old(pkt.Body()))
  {
    var fixed := pkt.Body()[..4] + [pkt.Body()[7]];
    pkt.Advance(40);
    CompressL4(mode, l4, pkt);
    pkt.PushHeader(fixed);
  }

  method CompressIpv4(mode: CompressionMode, l4: byte, pkt: Packet)
    requires pkt.Valid() && pkt.len >= 20 && L4Compressible(l4, pkt.len - 20)
    modifies pkt, pkt.buf
    ensures pkt.Valid() && pkt.offset + pkt.len == old(pkt.offset + pkt.len)
    ensures pkt.Body() == CompressedIpv4(mode, l4, old(pkt.Body()))
  {
    var header := pkt.Body()[..20];
    pkt.Advance(20);
    CompressL4(mode, l4, pkt);
    PushIpv4Fields(header, pkt);
  }

  /** The fields `CompressedIpv4` keeps of a header, in front of the packet. */
  method PushIpv4Fields(header: seq<byte>, pkt: Packet)
    requires pkt.Valid() && |header| == 20 && pkt.Headroom() >= 7
    modifies pkt, pkt.buf
    ensures pkt.Valid() && pkt.offset + pkt.len == old(pkt.offset + pkt.len)
    ensures pkt.Body() == WithIpv4Fields(header, old(pkt.Body()))
  {
    var fragOffset := Word(header, 6) % 0x2000;
    Ipv4FlagByte(header);
    var flags := header[0] % 16 * 16 + (if fragOffset != 0 then 8 else 0) + Word(header, 6) / 0x2000;
    pkt.PushHeader([header[8]]);
    if fragOffset != 0 {
      pkt.PushHeader(Be16(fragOffset));
    }
    pkt.PushHeader(header[4..6]);
    pkt.PushHeader([flags, header[1]]);
  }

  method CompressPacket(mode: CompressionMode, l3: L3Type, l4: byte, pkt: Packet)
    requires pkt.Valid() && Compressible(l3, l4, pkt.len)
    modifies pkt, pkt.buf
    ensures pkt.Valid() && pkt.offset + pkt.len == old(pkt.offset + pkt.len)
    ensures pkt.Body() == Compressed(mode, l3, l4, old(pkt.Body()))
  {
    match l3
    case Ipv4 => CompressIpv4(mode, l4, pkt);
    case Ipv6 => CompressIpv6(mode, l4, pkt);
    case NoL3 =>
  }

  /** Take the ports from the five-tuple or, where the compression mode says so, from the packet. */
  method TakePorts(mode: CompressionMode, ft: FiveTuple, pkt: Packet) returns (srcPort: u16, dstPort: u16)
    requires pkt.Valid() && pkt.len >= mode.CarriedPortBytes()
    modifies pkt
    ensures pkt.Valid() && pkt.offset + pkt.len == old(pkt.offset + pkt.len)
    ensures pkt.Body() == old(pkt.Body())[mode.CarriedPortBytes()..]
    ensures Be16(srcPort) + Be16(dstPort) == RestoredPorts(mode, ft, old(pkt.Body()))
  {
    ghost var c := pkt.Body();
    srcPort, dstPort := ft.srcPort, ft.dstPort;
    if !mode.srcPort {
      srcPort := pkt.GetU16();
      Be16OfWord(c, 0);
    }
    ghost var d := pkt.Body();
    if !mode.dstPort {
      dstPort := pkt.GetU16();
      Be16OfWord(d, 0);
    }
  }

  /** Moving the first twelve bytes down by two opens a slot for the checksum behind them. */
  lemma ChecksumSlot(ports: seq<byte>, rest: seq<byte>)
    requires |ports| == 4 && |rest| >= 14
    ensures Patch(ports + Patch([0, 0] + rest, 0, ([0, 0] + rest)[2..14]), 16, [0, 0])
         == ports + (rest[..12] + ([0, 0] + rest[12..]))
  {
    assert ([0, 0] + rest)[2..14] == rest[..12];
  }

  method PushBothPorts(srcPort: u16, dstPort: u16, pkt: Packet)
    requires pkt.Valid() && 4 <= pkt.Headroom()
    modifies pkt, pkt.buf
    ensures pkt.Valid() && pkt.offset == old(pkt.offset) - 4
    ensures pkt.Body() == Be16(srcPort) + Be16(dstPort) + old(pkt.Body())
  {
    pkt.PushHeader(Be16(dstPort));
    pkt.PushHeader(Be16(srcPort));
  }

  method ExpandTcp(mode: CompressionMode, ft: FiveTuple, pkt: Packet)
    requires ft.l4 == TCP && pkt.Valid() && L4Expandable(mode, TCP, pkt.len)
    requires ExpandedL4Length(mode, ft.l4, pkt.len) <= pkt.len + pkt.Headroom()
    modifies pkt, pkt.buf
    ensures pkt.Valid() && pkt.offset + pkt.len == old(pkt.offset + pkt.len)
    ensures pkt.Body() == ExpandedL4(mode, ft, old(pkt.Body()))
  {
    var srcPort, dstPort := TakePorts(mode, ft, pkt);
    OpenChecksumSlot(srcPort, dstPort, pkt);
    pkt.Write(16, Be16(L4Checksum(ft, TCP, pkt.Body())));
  }

  /** Ports in front, and a zero checksum field moved in behind the twelve bytes after them. */
  method OpenChecksumSlot(srcPort: u16, dstPort: u16, pkt: Packet)
    requires pkt.Valid() && pkt.len >= 14 && 6 <= pkt.Headroom()
    modifies pkt, pkt.buf
    ensures pkt.Valid() && pkt.offset == old(pkt.offset) - 6
    ensures var rest := old(pkt.Body());
            pkt.Body() == Be16(srcPort) + Be16(dstPort) + (rest[..12] + ([0, 0] + rest[12..]))
  {
    ghost var rest := pkt.Body();
    pkt.PushHeader([0, 0]);
    pkt.CopyWithin(2, 12, 0);
    PushBothPorts(srcPort, dstPort, pkt);
    pkt.Write(16, [0, 0]);
    ChecksumSlot(Be16(srcPort) + Be16(dstPort), rest);
  }

  method ExpandUdp(mode: CompressionMode, ft: FiveTuple, pkt: Packet)
    requires ft.l4 == UDP && pkt.Valid() && L4Expandable(mode, UDP, pkt.len)
    requires ExpandedL4Length(mode, ft.l4, pkt.len) <= pkt.len + pkt.Headroom()
    modifies pkt, pkt.buf
    ensures pkt.Valid() && pkt.offset + pkt.len == old(pkt.offset + pkt.len)
    ensures pkt.Body() == ExpandedL4(mode, ft, old(pkt.Body()))
  {
    var srcPort, dstPort := TakePorts(mode, ft, pkt);
    var payloadLen := pkt.len - 2;
    pkt.PushHeader(Be16((payloadLen + 8) % 0x1_0000));
    PushBothPorts(srcPort, dstPort, pkt);
  }

  method ExpandL4(mode: CompressionMode, ft: FiveTuple, pkt: Packet)
    requires pkt.Valid() && L4Expandable(mode, ft.l4, pkt.len)
    requires ExpandedL4Length(mode, ft.l4, pkt.len) <= pkt.len + pkt.Headroom()
    modifies pkt, pkt.buf
    ensures pkt.Valid() && pkt.offset + pkt.len == old(pkt.offset + pkt.len)
    ensures pkt.Body() == ExpandedL4(mode, ft, old(pkt.Body()))
  {
    if ft.l4 == TCP {
      ExpandTcp(mode, ft, pkt);
    } else if ft.l4 == UDP {
      ExpandUdp(mode, ft, pkt);
    }
  }

  method ExpandIpv6(mode: CompressionMode, ft: FiveTuple, pkt: Packet)
    requires pkt.Valid() && pkt.len >= 5 && L4Expandable(mode, ft.l4, pkt.len - 5)
    requires 40 + ExpandedL4Length(mode, ft.l4, pkt.len - 5) <= pkt.len + pkt.Headroom()
    modifies pkt, pkt.buf
    ensures pkt.Valid() && pkt.offset + pkt.len == old(pkt.offset + pkt.len)
    ensures pkt.Body() == ExpandedIpv6(mode, ft, old(pkt.Body()))
  {
    ghost var c := pkt.Body();
    var fixed := pkt.Body()[..5];
    pkt.Advance(5);
    ExpandL4(mode, ft, pkt);
    assert pkt.Body() == ExpandedL4(mode, ft, c[5..]) && fixed[..4] == c[..4];
    pkt.PushHeader(FreshIpv6Header(ft, fixed[..4], pkt.len, fixed[4]));
  }

  /** Take the compressed IPv4 header off the packet. */
  method TakeIpv4Fields(pkt: Packet) returns (hl: byte, tos: byte, id: seq<byte>, fragment: u16, ttl: byte)
    requires pkt.Valid() && pkt.len >= 1 && pkt.len >= CompressedIpv4HeaderLength(pkt.Body()[0])
    modifies pkt
    ensures pkt.Valid() && pkt.offset + pkt.len == old(pkt.offset + pkt.len)
    ensures var c := old(pkt.Body()); var h := CompressedIpv4HeaderLength(c[0]);
            && pkt.Body() == c[h..] && hl == c[0] / 16 && tos == c[1] && id == c[2..4] && ttl == c[h - 1]
            && var carried := if h == 7 then Word(c, 4) else 0;
               fragment == WithFlags(carried, c[0] % 8)
  {
    var flags := pkt.Body()[0];
    hl, tos := flags / 16, pkt.Body()[1];
    pkt.Advance(2);
    id := pkt.Body()[..2];
    pkt.Advance(2);
    var carried: u16 := 0;
    if flags / 8 % 2 == 1 {
      carried := pkt.GetU16();
    }
    fragment := WithFlags(carried, flags % 8);
    ttl := pkt.Body()[0];
    pkt.Advance(1);
  }

  method ExpandIpv4(mode: CompressionMode, ft: FiveTuple, pkt: Packet)
    requires pkt.Valid() && Ipv4Expandable(mode, ft, pkt.Body())
    requires var h := CompressedIpv4HeaderLength(pkt.Body()[0]);
             20 + ExpandedL4Length(mode, ft.l4, pkt.len - h) <= pkt.len + pkt.Headroom()
    modifies pkt, pkt.buf
    ensures pkt.Valid() && pkt.offset + pkt.len == old(pkt.offset + pkt.len)
    ensures pkt.Body() == ExpandedIpv4(mode, ft, old(pkt.Body()))
  {
    var hl, tos, id, fragment, ttl := TakeIpv4Fields(pkt);
    ExpandL4(mode, ft, pkt);
    PutIpv4Header(ft, hl, tos, id, fragment, ttl, pkt);
  }

  method PutIpv4Header(ft: FiveTuple, hl: byte, tos: byte, id: seq<byte>, fragment: u16, ttl: byte, pkt: Packet)
    requires pkt.Valid() && pkt.Headroom() >= 20 && hl < 16 && |id| == 2 && hl * 4 <= 20 + pkt.len
    modifies pkt, pkt.buf
    ensures pkt.Valid() && pkt.offset == old(pkt.offset) - 20
    ensures pkt.Body() == FreshIpv4Packet(ft, hl, tos, id, fragment, ttl, old(pkt.Body()))
  {
    pkt.PushHeader(FreshIpv4Header(ft, hl, tos, pkt.len + 20, id, fragment, ttl));
    pkt.Write(10, Be16(Checksum(pkt.Body()[..hl * 4])));
  }

  method ExpandPacket(mode: CompressionMode, ft: FiveTuple, pkt: Packet)
    requires pkt.Valid() && Expandable(mode, ft, pkt.Body())
    requires |Expanded(mode, ft, pkt.Body())| <= pkt.len + pkt.Headroom()
    modifies pkt, pkt.buf
    ensures pkt.Valid() && pkt.offset + pkt.len == old(pkt.offset + pkt.len)
    ensures pkt.Body() == Expanded(mode, ft, old(pkt.Body()))
  {
    match ft.l3
    case Ipv4 => ExpandIpv4(mode, ft, pkt);
    case Ipv6 => ExpandIpv6(mode, ft, pkt);
    case NoL3 =>
  }

  /** Compressing leaves exactly the headroom that expanding takes back: the body returns to its place. */
  method CompressAndExpand(mode: CompressionMode, ft: FiveTuple, pkt: Packet)
    requires pkt.Valid() && FullHeaders(ft, pkt.Body())
    modifies pkt, pkt.buf
    ensures pkt.Valid() && pkt.offset == old(pkt.offset)
    ensures pkt.Body() == Rebuilt(mode, ft, old(pkt.Body()))
  {
    RoundTrip(mode, ft, pkt.Body());
    CompressPacket(mode, ft.l3, ft.l4, pkt);
    ExpandPacket(mode, ft, pkt);
  }
}

/**
Header compression on the packets the classifier lets through
(adapter/ph/src/classifier.rs, adapter/ph/src/compress.rs, adapter/ph/src/fastpath.rs).
*/
module AcceptedPackets {
  import opened Packets
  import opened Bytes
  import opened InternetChecksum
  import opened Classifier
  import opened Compress

  /** The classifier accepts the packet whole and leaves this five-tuple. */
  ghost predicate AcceptedAs(b: seq<byte>, ft: FiveTuple) {
    exists ft0 :: Classify(ft0, b, DEFAULT_OPTIONS).ft == ft && Whole(Classify(ft0, b, DEFAULT_OPTIONS).outcome)
  }

  /** Compression looks for the transport header right behind a 20-byte IPv4 header. */
  predicate PortsInPlace(ft: FiveTuple, b: seq<byte>)
    requires FullHeaders(ft, b)
  {
    ft.l3 == Ipv4 && (ft.l4 == TCP || ft.l4 == UDP) ==> b[0] % 16 == 5
  }

  /** Or the options there happen to read as a transport header that agrees with the five-tuple. */
  ghost predicate TransportFound(mode: CompressionMode, ft: FiveTuple, b: seq<byte>)
    requires FullHeaders(ft, b)
  {
    PortsInPlace(ft, b) || L4Consistent(mode, ft, b[20..])
  }

  function L4Offset(ft: FiveTuple): nat {
    if ft.l3 == Ipv4 then 20 else 40
  }

  /** The IP header fields of an accepted packet. */
  lemma AcceptedHeader(b: seq<byte>, ft: FiveTuple)
    requires AcceptedAs(b, ft)
    ensures ft.l3 != NoL3 && FullHeaders(ft, b)
    ensures ft.l3 == Ipv4 ==>
              && b[0] / 16 == 4 && b[0] % 16 >= 5 && Word(b, 2) == |b|
              && b[12..16] == ReadAsV4(ft.src) && b[16..20] == ReadAsV4(ft.dst)
              && Checksum(b[..b[0] % 16 * 4]) == 0
    ensures ft.l3 == Ipv6 ==>
              && b[0] / 16 == 6 && Word(b, 4) == |b| - 40
              && b[8..24] == ft.src && b[24..40] == ft.dst
  {
    var ft0 :| Classify(ft0, b, DEFAULT_OPTIONS).ft == ft && Whole(Classify(ft0, b, DEFAULT_OPTIONS).outcome);
    if b[0] / 16 == 4 {
      AcceptedIpv4Header(ft0, b);
    } else {
      AcceptedIpv6Header(ft0, b);
    }
  }

  lemma AcceptedIpv4Header(ft0: FiveTuple, b: seq<byte>)
    requires |b| >= 1 && b[0] / 16 == 4 && Whole(ClassifyIpv4(ft0, b, DEFAULT_OPTIONS).outcome)
    ensures var ft := ClassifyIpv4(ft0, b, DEFAULT_OPTIONS).ft;
            && ft.l3 == Ipv4 && FullHeaders(ft, b)
            && b[0] % 16 >= 5 && Word(b, 2) == |b|
            && b[12..16] == ReadAsV4(ft.src) && b[16..20] == ReadAsV4(ft.dst)
            && Checksum(b[..b[0] % 16 * 4]) == 0
  {
    var ft1 := ft0.(l3 := Ipv4, src := FromV4(b[12..16]), dst := FromV4(b[16..20]));
    KeepsAddresses(ft1, b[b[0] % 16 * 4..], b[9], DEFAULT_OPTIONS);
    AcceptedLength(ft1, b[b[0] % 16 * 4..], b[9]);
  }

  lemma AcceptedIpv6Header(ft0: FiveTuple, b: seq<byte>)
    requires |b| >= 1 && b[0] / 16 == 6 && Whole(ClassifyIpv6(ft0, b, DEFAULT_OPTIONS).outcome)
    ensures var ft := ClassifyIpv6(ft0, b, DEFAULT_OPTIONS).ft;
            && ft.l3 == Ipv6 && FullHeaders(ft, b) && Word(b, 4) == |b| - 40
            && b[8..24] == ft.src && b[24..40] == ft.dst
  {
    var ft1 := ft0.(l3 := Ipv6, src := b[8..24], dst := b[24..40]);
    KeepsAddresses(ft1, b[40..], b[6], DEFAULT_OPTIONS);
    AcceptedLength(ft1, b[40..], b[6]);
  }

  /** Without extension headers the transport header agrees with the five-tuple too. */
  lemma AcceptedTransport(b: seq<byte>, ft: FiveTuple)
    requires AcceptedAs(b, ft)
    ensures FullHeaders(ft, b) && L4Offset(ft) <= |b|
    ensures HeaderProtocol(b) == ft.l4 ==> L4Agrees(ft, Payload(b))
    ensures HeaderProtocol(b) == ft.l4 && PortsInPlace(ft, b) ==> L4Agrees(ft, b[L4Offset(ft)..])
  {
    AcceptedHeader(b, ft);
    var ft0 :| Classify(ft0, b, DEFAULT_OPTIONS).ft == ft && Whole(Classify(ft0, b, DEFAULT_OPTIONS).outcome);
    if HeaderProtocol(b) == ft.l4 {
      if b[0] / 16 == 4 {
        var ft1 := ft0.(l3 := Ipv4, src := FromV4(b[12..16]), dst := FromV4(b[16..20]));
        AcceptedPayload(ft1, b[b[0] % 16 * 4..], b[9]);
      } else {
        var ft1 := ft0.(l3 := Ipv6, src := b[8..24], dst := b[24..40]);
        AcceptedPayload(ft1, b[40..], b[6]);
      }
    }
  }

  /** The checksum field at `at`, if all ones, replaced by the other one's-complement zero. */
  function CanonicalField(b: seq<byte>, at: nat): (r: seq<byte>)
    requires at + 2 <= |b|
    ensures |r| == |b|
  {
    if Word(b, at) == 0xffff then Patch(b, at, [0, 0]) else b
  }

  predicate HasTcpField(ft: FiveTuple, b: seq<byte>)
    requires FullHeaders(ft, b)
  {
    ft.l4 == TCP && ft.l3 != NoL3 && PortsInPlace(ft, b)
  }

  /** Both recomputed checksum fields in canonical form; nothing else changes. */
  function Canonical(ft: FiveTuple, b: seq<byte>): (r: seq<byte>)
    requires FullHeaders(ft, b)
    ensures |r| == |b|
  {
    var header := if ft.l3 == Ipv4 then CanonicalField(b, 10) else b;
    if HasTcpField(ft, b) then CanonicalField(header, L4Offset(ft) + 16) else header
  }

  predicate HasCanonicalChecksums(ft: FiveTuple, b: seq<byte>)
    requires FullHeaders(ft, b)
  {
    && (ft.l3 == Ipv4 ==> Word(b, 10) != 0xffff)
    && (HasTcpField(ft, b) ==> Word(b, L4Offset(ft) + 16) != 0xffff)
  }

  lemma TcpChecksumRecomputed(ft: FiveTuple, l4: seq<byte>)
    requires ft.l4 == TCP && |l4| >= 20 && L4ChecksumValid(ft, l4)
    ensures L4Checksum(ft, TCP, Patch(l4, 16, [0, 0])) == if Word(l4, 16) == 0xffff then 0 else Word(l4, 16)
  {
    var pseudo := PseudoHeader(ft.l3, ft.src, ft.dst, TCP, |l4|);
    var s := pseudo + l4;
    var at := |pseudo| + 16;
    assert Patch(s, at, [0, 0]) == pseudo + Patch(l4, 16, [0, 0]);
    var protoAt := if ft.l3 == Ipv4 then 9 else 39;
    assert Patch(s, at, [0, 0])[protoAt] == TCP;
    WordSumPositive(Patch(s, at, [0, 0]), protoAt);
    RecomputedField(s, at);
  }

  lemma Ipv4ChecksumRecomputed(b: seq<byte>)
    requires |b| >= 20 && b[0] / 16 == 4 && 5 <= b[0] % 16 && b[0] % 16 * 4 <= |b|
    requires Checksum(b[..b[0] % 16 * 4]) == 0
    ensures Checksum(Patch(b, 10, [0, 0])[..b[0] % 16 * 4]) == if Word(b, 10) == 0xffff then 0 else Word(b, 10)
  {
    var s := b[..b[0] % 16 * 4];
    assert Patch(b, 10, [0, 0])[..b[0] % 16 * 4] == Patch(s, 10, [0, 0]);
    WordSumPositive(Patch(s, 10, [0, 0]), 0);
    RecomputedField(s, 10);
  }

  /** Rebuilding the transport header of an accepted packet only makes its checksum canonical. */
  lemma L4Canonical(mode: CompressionMode, ft: FiveTuple, l4: seq<byte>)
    requires L4Agrees(ft, l4) && |l4| < 0x1_0000
    ensures RebuiltL4(mode, ft, l4) == if ft.l4 == TCP then CanonicalField(l4, 16) else l4
  {
    if ft.l4 == TCP {
      SamePorts(mode, ft, l4);
      TcpChecksumRecomputed(ft, l4);
      var zeroed := Patch(l4, 16, [0, 0]);
      assert RebuiltPorts(mode, ft, l4) + (l4[4..16] + ([0, 0] + l4[18..])) == zeroed;
      Be16OfWord(l4, 16);
      assert Be16(0) == [0, 0];
      assert Patch(zeroed, 16, l4[16..18]) == l4;
    } else if ft.l4 == UDP {
      L4RebuiltIff(mode, ft, l4);
    }
  }

  /**
  Compressing and expanding an accepted packet gives it back with its checksum fields made
  canonical, so that a field changes only from one one's-complement zero to the other, exactly when
  the IP header itself names the transport protocol and compression finds the transport header.
  */
  lemma RoundTripIsCanonical(mode: CompressionMode, ft: FiveTuple, b: seq<byte>)
    requires AcceptedAs(b, ft)
    ensures FullHeaders(ft, b)
    ensures Rebuilt(mode, ft, b) == Canonical(ft, b)
       <==> HeaderProtocol(b) == ft.l4 && TransportFound(mode, ft, b)
  {
    AcceptedHeader(b, ft);
    if HeaderProtocol(b) != ft.l4 {
      ProtocolIsRebuilt(mode, ft, b);
    } else if PortsInPlace(ft, b) {
      AcceptedTransport(b, ft);
      L4Canonical(mode, ft, b[L4Offset(ft)..]);
      if ft.l3 == Ipv6 {
        Ipv6Canonical(mode, ft, b);
      } else {
        Ipv4HeaderCanonical(mode, ft, b);
        Ipv4Canonical(mode, ft, b);
      }
    } else {
      OptionsCanonical(mode, ft, b);
    }
  }

  /** The rebuilt header names the five-tuple's protocol; making checksums canonical leaves the original's. */
  lemma ProtocolIsRebuilt(mode: CompressionMode, ft: FiveTuple, b: seq<byte>)
    requires FullHeaders(ft, b) && ft.l3 != NoL3
    ensures var at := if ft.l3 == Ipv4 then 9 else 6;
            Rebuilt(mode, ft, b)[at] == ft.l4 && Canonical(ft, b)[at] == b[at]
  {
  }

  /** With options in front, the checksum field cannot make up for a payload that changes. */
  lemma OptionsCanonical(mode: CompressionMode, ft: FiveTuple, b: seq<byte>)
    requires ft.l3 == Ipv4 && FullHeaders(ft, b) && !PortsInPlace(ft, b)
    requires b[0] / 16 == 4 && b[0] % 16 >= 5 && Word(b, 2) == |b| && b[9] == ft.l4
    requires b[12..16] == ReadAsV4(ft.src) && b[16..20] == ReadAsV4(ft.dst)
    requires Checksum(b[..b[0] % 16 * 4]) == 0
    ensures RebuiltIpv4(mode, ft, b) == Canonical(ft, b) <==> L4Consistent(mode, ft, b[20..])
  {
    L4RebuiltIff(mode, ft, b[20..]);
    var header := CanonicalField(b, 10);
    CanonicalFieldKeepsRest(b, 10, 20);
    assert RebuiltIpv4(mode, ft, b)[20..] == RebuiltL4(mode, ft, b[20..]);
    if L4Consistent(mode, ft, b[20..]) {
      Ipv4HeaderCanonical(mode, ft, b);
      assert header == header[..20] + b[20..];
    }
  }

  lemma Ipv6Canonical(mode: CompressionMode, ft: FiveTuple, b: seq<byte>)
    requires ft.l3 == Ipv6 && FullHeaders(ft, b)
    requires Word(b, 4) == |b| - 40 && b[6] == ft.l4 && b[8..24] == ft.src && b[24..40] == ft.dst
    requires RebuiltL4(mode, ft, b[40..]) == if ft.l4 == TCP then CanonicalField(b[40..], 16) else b[40..]
    ensures RebuiltIpv6(mode, ft, b) == Canonical(ft, b)
  {
    Ipv6HeaderIff(ft, b);
    if ft.l4 == TCP {
      CanonicalFieldBehind(b[..40], b[40..], 16);
    }
    assert b == b[..40] + b[40..];
  }

  lemma CanonicalFieldKeepsRest(b: seq<byte>, at: nat, n: nat)
    requires at + 2 <= n <= |b|
    ensures CanonicalField(b, at)[n..] == b[n..]
  {
    assert Patch(b, at, [0, 0])[n..] == b[n..];
  }

  lemma CanonicalFieldBehind(a: seq<byte>, b: seq<byte>, at: nat)
    requires at + 2 <= |b|
    ensures CanonicalField(a + b, |a| + at) == a + CanonicalField(b, at)
  {
    assert Word(a + b, |a| + at) == Word(b, at);
    assert Patch(a + b, |a| + at, [0, 0]) == a + Patch(b, at, [0, 0]);
  }

  /** The header expansion writes is the original one with a zero checksum field. */
  lemma FreshHeaderIsZeroed(ft: FiveTuple, b: seq<byte>)
    requires |b| >= 20 && b[0] / 16 == 4 && Word(b, 2) == |b| && b[9] == ft.l4
    requires b[12..16] == ReadAsV4(ft.src) && b[16..20] == ReadAsV4(ft.dst)
    ensures FreshIpv4Header(ft, b[0] % 16, b[1], |b|, b[4..6], Word(b, 6), b[8]) == Patch(b, 10, [0, 0])[..20]
  {
    var header := FreshIpv4Header(ft, b[0] % 16, b[1], |b|, b[4..6], Word(b, 6), b[8]);
    Ipv4HeaderIff(ft, b);
    assert header == header[..10] + header[10..12] + header[12..];
    assert Patch(b, 10, [0, 0])[..20] == b[..10] + [0, 0] + b[12..20];
  }

  /** Rebuilding an accepted IPv4 header only makes its checksum canonical. */
  lemma Ipv4HeaderCanonical(mode: CompressionMode, ft: FiveTuple, b: seq<byte>)
    requires ft.l3 == Ipv4 && FullHeaders(ft, b)
    requires b[0] / 16 == 4 && b[0] % 16 >= 5 && Word(b, 2) == |b| && b[9] == ft.l4
    requires b[12..16] == ReadAsV4(ft.src) && b[16..20] == ReadAsV4(ft.dst)
    requires Checksum(b[..b[0] % 16 * 4]) == 0
    requires RebuiltL4(mode, ft, b[20..]) == b[20..] || b[0] % 16 == 5
    ensures RebuiltIpv4(mode, ft, b) == CanonicalField(b, 10)[..20] + RebuiltL4(mode, ft, b[20..])
  {
    var n := b[0] % 16 * 4;
    var body := RebuiltL4(mode, ft, b[20..]);
    var header := Patch(b, 10, [0, 0])[..20];
    FreshHeaderIsZeroed(ft, b);
    Ipv4ChecksumRecomputed(b);
    ZeroedPrefix(b, body, n);
    ChecksumInHeader(b, body);
  }

  lemma ZeroedPrefix(b: seq<byte>, body: seq<byte>, n: nat)
    requires |b| >= 20 && n <= |b| && |body| == |b| - 20 && (body == b[20..] || n == 20)
    ensures (Patch(b, 10, [0, 0])[..20] + body)[..n] == Patch(b, 10, [0, 0])[..n]
  {
    var zeroed := Patch(b, 10, [0, 0]);
    if body == b[20..] {
      assert zeroed[20..] == b[20..];
      assert zeroed == zeroed[..20] + body;
    }
  }

  lemma Ipv4Canonical(mode: CompressionMode, ft: FiveTuple, b: seq<byte>)
    requires ft.l3 == Ipv4 && FullHeaders(ft, b) && PortsInPlace(ft, b)
    requires RebuiltL4(mode, ft, b[20..]) == if ft.l4 == TCP then CanonicalField(b[20..], 16) else b[20..]
    requires RebuiltIpv4(mode, ft, b) == CanonicalField(b, 10)[..20] + RebuiltL4(mode, ft, b[20..])
    ensures RebuiltIpv4(mode, ft, b) == Canonical(ft, b)
  {
    var header := CanonicalField(b, 10);
    assert header == header[..20] + b[20..];
    if ft.l4 == TCP {
      CanonicalFieldBehind(header[..20], b[20..], 16);
    }
  }

  lemma ChecksumInHeader(b: seq<byte>, body: seq<byte>)
    requires |b| >= 20
    ensures var word := if Word(b, 10) == 0xffff then 0 else Word(b, 10);
            Patch(Patch(b, 10, [0, 0])[..20] + body, 10, Be16(word)) == CanonicalField(b, 10)[..20] + body
  {
    Be16OfWord(b, 10);
    assert Be16(0) == [0, 0];
  }

  lemma CanonicalIff(ft: FiveTuple, b: seq<byte>)
    requires FullHeaders(ft, b)
    ensures Canonical(ft, b) == b <==> HasCanonicalChecksums(ft, b)
  {
    var header := if ft.l3 == Ipv4 then CanonicalField(b, 10) else b;
    var at := L4Offset(ft) + 16;
    if ft.l3 == Ipv4 && Word(b, 10) == 0xffff {
      assert Word(header, 10) == 0;
      assert Word(Canonical(ft, b), 10) == 0;
    }
    if HasTcpField(ft, b) {
      assert Word(header, at) == Word(b, at);
      if Word(b, at) == 0xffff {
        assert Word(Canonical(ft, b), at) == 0;
      }
    }
  }

  /**
  Exactly which accepted packets survive compression and expansion unchanged: those whose IP
  header itself names the transport protocol, whose transport header is where compression looks
  for it, and whose checksum fields are canonical.
  */
  lemma AcceptedRoundTrip(mode: CompressionMode, ft: FiveTuple, b: seq<byte>)
    requires AcceptedAs(b, ft)
    ensures FullHeaders(ft, b) && Compressible(ft.l3, ft.l4, |b|)
    ensures var c := Compressed(mode, ft.l3, ft.l4, b);
            Expandable(mode, ft, c) &&
            (Expanded(mode, ft, c) == b
             <==> HeaderProtocol(b) == ft.l4 && TransportFound(mode, ft, b) && HasCanonicalChecksums(ft, b))
  {
    AcceptedHeader(b, ft);
    RoundTrip(mode, ft, b);
    RoundTripIsCanonical(mode, ft, b);
    CanonicalIff(ft, b);
    if Rebuilt(mode, ft, b) == b {
      SurvivorsAreFound(mode, ft, b);
    }
  }

  lemma SurvivorsAreFound(mode: CompressionMode, ft: FiveTuple, b: seq<byte>)
    requires ft.l3 != NoL3 && FullHeaders(ft, b) && Rebuilt(mode, ft, b) == b
    requires if ft.l3 == Ipv4 then b[0] / 16 == 4 else b[0] / 16 == 6
    ensures HeaderProtocol(b) == ft.l4 && TransportFound(mode, ft, b)
  {
    if ft.l3 == Ipv4 {
      Ipv4RebuiltIff(mode, ft, b);
    } else {
      Ipv6RebuiltIff(mode, ft, b);
    }
  }

  // ---------------------------------------------------------------- decrementing the hop count

  /** `decrement_ttl`: the packet afterwards. */
  function TtlDecremented(l3: L3Type, b: seq<byte>): (r: seq<byte>)
    requires (l3 == Ipv4 ==> |b| >= 20) && (l3 == Ipv6 ==> |b| >= 40)
    ensures |r| == |b|
  {
    if l3 == Ipv4 && b[8] > 0 then b[8 := b[8] - 1]
    else if l3 == Ipv6 && b[7] > 0 then b[7 := b[7] - 1]
    else b
  }

  /** Its verdict: the count is then zero, and the packet is to be dropped. */
  predicate TtlExpires(l3: L3Type, b: seq<byte>)
    requires (l3 == Ipv4 ==> |b| >= 20) && (l3 == Ipv6 ==> |b| >= 40)
  {
    (l3 == Ipv4 && b[8] <= 1) || (l3 == Ipv6 && b[7] <= 1)
  }

  /** The same packet with one less in the byte at `at`, which stops at zero. */
  predicate OneLess(b: seq<byte>, r: seq<byte>, at: nat)
    requires at < |b|
  {
    && |r| == |b| && r[at] as int == (if b[at] == 0 then 0 else b[at] as int - 1)
    && forall i :: 0 <= i < |b| && i != at ==> r[i] == b[i]
  }

  method DecrementTtl(l3: L3Type, pkt: Packet) returns (expired: bool)
    requires pkt.Valid() && (l3 == Ipv4 ==> pkt.len >= 20) && (l3 == Ipv6 ==> pkt.len >= 40)
    modifies pkt.buf
    ensures pkt.Body() == TtlDecremented(l3, old(pkt.Body()))
    ensures expired == TtlExpires(l3, old(pkt.Body()))
    ensures l3 == Ipv4 ==> OneLess(old(pkt.Body()), pkt.Body(), 8) && (expired <==> pkt.Body()[8] == 0)
    ensures l3 == Ipv6 ==> OneLess(old(pkt.Body()), pkt.Body(), 7) && (expired <==> pkt.Body()[7] == 0)
    ensures l3 == NoL3 ==> pkt.Body() == old(pkt.Body()) && !expired
  {
    if l3 == NoL3 {
      return false;
    }
    var at := if l3 == Ipv4 then 8 else 7;
    var ttl := pkt.Body()[at];
    if ttl > 0 {
      pkt.Write(at, [ttl - 1]);
    }
    return pkt.Body()[at] == 0;
  }

  /** For IPv6 the decrement touches no field that compression drops. */
  lemma HopLimitKeepsConsistency(mode: CompressionMode, ft: FiveTuple, b: seq<byte>)
    requires ft.l3 == Ipv6 && FullHeaders(ft, b)
    ensures FullHeaders(ft, TtlDecremented(Ipv6, b))
    ensures Consistent(mode, ft, TtlDecremented(Ipv6, b)) <==> Consistent(mode, ft, b)
  {
    var r := TtlDecremented(Ipv6, b);
    assert r[8..24] == b[8..24] && r[24..40] == b[24..40] && r[40..] == b[40..];
  }

  /** An accepted IPv6 packet survives with its hop limit lowered exactly when it would have before. */
  lemma LoweredHopLimitSurvives(mode: CompressionMode, ft: FiveTuple, b: seq<byte>)
    requires AcceptedAs(b, ft) && ft.l3 == Ipv6
    ensures FullHeaders(ft, b) && FullHeaders(ft, TtlDecremented(Ipv6, b))
    ensures Rebuilt(mode, ft, TtlDecremented(Ipv6, b)) == TtlDecremented(Ipv6, b)
       <==> b[6] == ft.l4 && (ft.l4 == TCP ==> Word(b, 56) != 0xffff)
  {
    AcceptedHeader(b, ft);
    HopLimitKeepsConsistency(mode, ft, b);
    RoundTrip(mode, ft, b);
    RoundTrip(mode, ft, TtlDecremented(Ipv6, b));
    AcceptedRoundTrip(mode, ft, b);
  }

  lemma TtlLowersSum(b: seq<byte>, n: nat)
    requires 20 <= n <= |b| && b[8] > 0
    ensures WordSum(b[..n]) == WordSum(Patch(TtlDecremented(Ipv4, b), 10, [0, 0])[..n]) + Word(b, 10) + 0x100
  {
    var s := b[..n];
    var z := Patch(s, 10, [0, 0]);
    assert Be16(0) == [0, 0];
    WordSumPatch(s, 10, 0);
    assert Word(z, 8) == Word(b, 8);
    WordSumPatch(z, 8, Word(z, 8) - 0x100);
    Be16OfWord([b[8] - 1, b[9]], 0);
    assert Patch(TtlDecremented(Ipv4, b), 10, [0, 0])[..n] == Patch(z, 8, [b[8] - 1, b[9]]);
  }

  /** A checksum field that was right before the decrement is wrong after it. */
  lemma StaleField(b: seq<byte>, n: nat)
    requires 20 <= n <= |b| && b[8] > 0 && Checksum(b[..n]) == 0
    ensures Word(b, 10) != Checksum(Patch(TtlDecremented(Ipv4, b), 10, [0, 0])[..n])
  {
    var rest := WordSum(Patch(TtlDecremented(Ipv4, b), 10, [0, 0])[..n]);
    TtlLowersSum(b, n);
    ZeroChecksum(b[..n]);
    Completes(rest, Word(b, 10));
  }

  /**
  For IPv4 it leaves the header checksum stale: no accepted packet whose TTL was decremented
  survives the round trip, because expansion writes the checksum of the decremented header.
  */
  lemma StaleIpv4Checksum(mode: CompressionMode, ft: FiveTuple, b: seq<byte>)
    requires AcceptedAs(b, ft) && ft.l3 == Ipv4
    ensures FullHeaders(ft, b) && FullHeaders(ft, TtlDecremented(Ipv4, b))
    ensures b[8] > 0 ==> Rebuilt(mode, ft, TtlDecremented(Ipv4, b)) != TtlDecremented(Ipv4, b)
  {
    AcceptedHeader(b, ft);
    if b[8] > 0 {
      var r := TtlDecremented(Ipv4, b);
      RoundTrip(mode, ft, r);
      StaleField(b, b[0] % 16 * 4);
      assert Word(r, 10) == Word(b, 10);
    }
  }
}

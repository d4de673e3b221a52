/**
The packet classifier (adapter/ph/src/classifier.rs).

The source fills a mutable five-tuple while it recurses over slices of the packet; here each
function returns the five-tuple it leaves behind together with its outcome. A slice index that
Rust would refuse is the outcome `OutOfBounds`.
*/
module Classifier {
  import opened Bytes
  import opened InternetChecksum

  /** IPv6 address, or an IPv4 address in the mapped range ::ffff/96. */
  type Address = a: seq<byte> | |a| == 16 witness [0, 0, 0, 0, 0, 0, 0, 0, 0, 0, 0, 0, 0, 0, 0, 0]

  const V4_MAPPED_PREFIX: seq<byte> := [0, 0, 0, 0, 0, 0, 0, 0, 0, 0, 0xff, 0xff]

  function FromV4(a: seq<byte>): Address
    requires |a| == 4
  {
    V4_MAPPED_PREFIX + a
  }

  function ReadAsV4(a: Address): seq<byte> {
    a[12..]
  }

  predicate IsV4(a: Address) {
    a[..12] == V4_MAPPED_PREFIX
  }

  datatype L3Type = NoL3 | Ipv4 | Ipv6

  datatype FiveTuple = FiveTuple(
    src: Address, dst: Address, l3: L3Type, l4: byte, srcPort: u16, dstPort: u16)

  const HOPOPT: byte := 0
  const ICMP: byte := 1
  const TCP: byte := 6
  const UDP: byte := 17
  const IPV6_ROUTE: byte := 43
  const IPV6_FRAG: byte := 44
  const AH: byte := 51
  const IPV6_ICMP: byte := 58
  const NO_NEXT_HEADER: byte := 59
  const IPV6_OPTS: byte := 60

  datatype Answer = OK | NonIP | UnclassifiedL4 | FirstFragment | SubsequentFragment

  datatype Reason = PacketLength | BadL3Checksum | BadL4Checksum | MappedAddress | Jumbogram

  datatype Outcome = Accepted(answer: Answer) | Rejected(reason: Reason) | OutOfBounds

  datatype Verdict = Verdict(ft: FiveTuple, outcome: Outcome)

  datatype Options = Options(ignoreTruncated: bool, ignoreBadChecksums: bool) {
    predicate ChecksumsMatter() {
      !ignoreBadChecksums && !ignoreTruncated
    }

    /** The length comparison the classifier makes wherever a header declares a length. */
    predicate LengthOk(actual: nat, declared: nat) {
      actual <= declared && (ignoreTruncated || declared <= actual)
    }
  }

  const DEFAULT_OPTIONS := Options(false, false)

  /** The pseudo header of section 3.1 of RFC 9293 (IPv4) or section 8.1 of RFC 8200 (IPv6). */
  function PseudoHeader(l3: L3Type, src: Address, dst: Address, proto: byte, len: nat): (r: seq<byte>)
    ensures |r| % 2 == 0
  {
    if l3 == Ipv4 then
      ReadAsV4(src) + ReadAsV4(dst) + [0, proto] + Be16(len % 0x1_0000)
    else
      src + dst + Be16(len / 0x1_0000 % 0x1_0000) + Be16(len % 0x1_0000) + [0, 0, 0, proto]
  }

  function L4Checksum(ft: FiveTuple, proto: byte, data: seq<byte>): u16 {
    Checksum(PseudoHeader(ft.l3, ft.src, ft.dst, proto, |data|) + data)
  }

  predicate L4ChecksumValid(ft: FiveTuple, data: seq<byte>) {
    L4Checksum(ft, ft.l4, data) == 0
  }

  function Classify(ft: FiveTuple, body: seq<byte>, options: Options): Verdict {
    if |body| == 0 then Verdict(ft, Rejected(PacketLength))
    else if body[0] / 16 == 4 then ClassifyIpv4(ft, body, options)
    else if body[0] / 16 == 6 then ClassifyIpv6(ft, body, options)
    else Verdict(ft, Accepted(NonIP))
  }

  function ClassifyIpv4(ft0: FiveTuple, body: seq<byte>, options: Options): Verdict {
    var ft := ft0.(l3 := Ipv4);
    if |body| < 20 then Verdict(ft, Rejected(PacketLength)) else
    var headerLength := body[0] % 16 * 4;
    if headerLength < 20 then Verdict(ft, Rejected(PacketLength))
    else if options.ChecksumsMatter() && headerLength > |body| then Verdict(ft, Rejected(PacketLength))
    else if options.ChecksumsMatter() && Checksum(body[..headerLength]) != 0 then
      Verdict(ft, Rejected(BadL3Checksum))
    else
      var ft := ft.(src := FromV4(body[12..16]), dst := FromV4(body[16..20]));
      var fragment := Word(body, 6);
      if fragment % 0x2000 != 0 then
        Verdict(ft.(l4 := body[9]), Accepted(SubsequentFragment))
      else if !options.LengthOk(|body|, Word(body, 2)) || headerLength > |body| then
        Verdict(ft, Rejected(PacketLength))
      else
        var inner := ClassifyNextHeader(ft, body[headerLength..], body[9], options);
        if fragment / 0x2000 % 2 != 0 && inner.outcome != OutOfBounds then
          inner.(outcome := Accepted(FirstFragment))
        else
          inner
  }

  function ClassifyIpv6(ft0: FiveTuple, body: seq<byte>, options: Options): Verdict {
    var ft := ft0.(l3 := Ipv6);
    if |body| < 40 then Verdict(ft, Rejected(PacketLength)) else
    var src: Address := body[8..24];
    var dst: Address := body[24..40];
    if IsV4(src) || IsV4(dst) then Verdict(ft, Rejected(MappedAddress)) else
    var ft := ft.(src := src, dst := dst);
    if Word(body, 4) == 0 && body[6] == HOPOPT then Verdict(ft, Rejected(Jumbogram))
    else if !options.LengthOk(|body| - 40, Word(body, 4)) then Verdict(ft, Rejected(PacketLength))
    else ClassifyNextHeader(ft, body[40..], body[6], options)
  }

  function ClassifyNextHeader(ft0: FiveTuple, body: seq<byte>, proto: byte, options: Options): Verdict
    decreases |body|, 1
  {
    var ft := ft0.(l4 := proto);
    if proto in {HOPOPT, IPV6_ROUTE, IPV6_OPTS} then SkipOption(ft, body, 8, 1, options)
    else if proto == AH then SkipOption(ft, body, 4, 2, options)
    else if proto == IPV6_FRAG then ClassifyFrag(ft, body, options)
    else if proto == ICMP then ClassifyIcmp(ft, body, Checksum(body) == 0, options)
    else if proto == IPV6_ICMP then ClassifyIcmp(ft, body, L4ChecksumValid(ft, body), options)
    else if proto == TCP then ClassifyTcp(ft, body, options)
    else if proto == UDP then ClassifyUdp(ft, body, options)
    else Verdict(ft.(srcPort := 0, dstPort := 0), Accepted(UnclassifiedL4))
  }

  predicate OptionLengthError(remaining: nat, nextHeader: byte, optionLength: nat) {
    optionLength > remaining || (nextHeader != NO_NEXT_HEADER && optionLength + 8 > remaining)
  }

  /** An option header counts its length in `unit` bytes, not counting the first `base` units. */
  function SkipOption(ft: FiveTuple, body: seq<byte>, unit: nat, base: nat, options: Options): Verdict
    requires unit * base == 8
    decreases |body|, 0
  {
    if |body| < 2 then Verdict(ft, OutOfBounds) else
    var optionLength := (body[1] as int + base) * unit;
    assert optionLength == body[1] as int * unit + 8;
    if OptionLengthError(|body|, body[0], optionLength) then Verdict(ft, Rejected(PacketLength))
    else ClassifyNextHeader(ft, body[optionLength..], body[0], options)
  }

  function ClassifyFrag(ft: FiveTuple, body: seq<byte>, options: Options): Verdict
    decreases |body|, 0
  {
    if |body| < 1 then Verdict(ft, OutOfBounds)
    else if OptionLengthError(|body|, body[0], 8) then Verdict(ft, Rejected(PacketLength))
    else if Word(body, 2) / 8 != 0 then Verdict(ft, Accepted(SubsequentFragment))
    else
      var inner := ClassifyNextHeader(ft, body[8..], body[0], options);
      if inner.outcome == OutOfBounds then inner else inner.(outcome := Accepted(FirstFragment))
  }

  function ClassifyIcmp(ft: FiveTuple, body: seq<byte>, checksumOk: bool, options: Options): Verdict {
    if |body| < 4 then Verdict(ft, OutOfBounds) else
    var ft := ft.(srcPort := body[0] as int, dstPort := body[1] as int);
    Verdict(ft, if options.ChecksumsMatter() && !checksumOk then Rejected(BadL4Checksum) else Accepted(OK))
  }

  function ClassifyTcp(ft: FiveTuple, body: seq<byte>, options: Options): Verdict {
    if |body| < 20 then Verdict(ft, Rejected(PacketLength))
    else if options.ChecksumsMatter() && !L4ChecksumValid(ft, body) then Verdict(ft, Rejected(BadL4Checksum))
    else
      var ft := ft.(srcPort := Word(body, 0), dstPort := Word(body, 2));
      var dataOffset := body[12] / 16 * 4;
      Verdict(ft, if dataOffset < 20 || dataOffset > |body| then Rejected(PacketLength) else Accepted(OK))
  }

  function ClassifyUdp(ft: FiveTuple, body: seq<byte>, options: Options): Verdict {
    if |body| < 8 then Verdict(ft, Rejected(PacketLength))
    else if options.ChecksumsMatter() && Word(body, 6) != 0 && !L4ChecksumValid(ft, body) then
      Verdict(ft, Rejected(BadL4Checksum))
    else
      var ft := ft.(srcPort := Word(body, 0), dstPort := Word(body, 2));
      Verdict(ft, if options.LengthOk(|body|, Word(body, 4)) then Accepted(OK) else Rejected(PacketLength))
  }

  // ---------------------------------------------------------------- the extension-header walk

  /** The header named by `proto` is too short for the bytes its classifier reads unconditionally. */
  predicate FirstReadShort(proto: byte, available: nat) {
    || (proto in {HOPOPT, IPV6_ROUTE, IPV6_OPTS, AH} && available < 2)
    || (proto == IPV6_FRAG && available < 1)
    || (proto in {ICMP, IPV6_ICMP} && available < 4)
  }

  /**
  Only the first header of a walk can be read out of bounds: the length check of each extension
  header leaves either 8 more bytes or the "no next header" mark.
  */
  lemma {:induction false} WalkInBounds(ft: FiveTuple, body: seq<byte>, proto: byte, options: Options)
    ensures ClassifyNextHeader(ft, body, proto, options).outcome == OutOfBounds
       <==> FirstReadShort(proto, |body|)
    decreases |body|
  {
    var ft' := ft.(l4 := proto);
    if proto in {HOPOPT, IPV6_ROUTE, IPV6_OPTS} {
      SkipInBounds(ft', body, 8, 1, options);
    } else if proto == AH {
      SkipInBounds(ft', body, 4, 2, options);
    } else if proto == IPV6_FRAG && |body| >= 1 && !OptionLengthError(|body|, body[0], 8) {
      WalkInBounds(ft', body[8..], body[0], options);
    }
  }

  lemma {:induction false} SkipInBounds(ft: FiveTuple, body: seq<byte>, unit: nat, base: nat, options: Options)
    requires unit * base == 8
    ensures SkipOption(ft, body, unit, base, options).outcome == OutOfBounds <==> |body| < 2
    decreases |body|, 0
  {
    if |body| >= 2 {
      var optionLength := (body[1] as int + base) * unit;
      assert optionLength == body[1] as int * unit + 8;
      if !OptionLengthError(|body|, body[0], optionLength) {
        WalkInBounds(ft, body[optionLength..], body[0], options);
      }
    }
  }

  /** Where the walk of a whole packet starts: the payload and the protocol the IP header names. */
  function Payload(body: seq<byte>): seq<byte>
    requires |body| >= 1
  {
    var headerLength := if body[0] / 16 == 4 then body[0] % 16 * 4 else 40;
    if headerLength <= |body| then body[headerLength..] else []
  }

  function HeaderProtocol(body: seq<byte>): byte
    requires |body| >= 20
  {
    if body[0] / 16 == 4 then body[9] else body[6]
  }

  /** The IP header passes its tests, so that the walk behind it begins. */
  predicate ReachesWalk(body: seq<byte>, options: Options) {
    if |body| >= 20 && body[0] / 16 == 4 then
      var headerLength := body[0] % 16 * 4;
      && 20 <= headerLength <= |body| && (options.ChecksumsMatter() ==> Checksum(body[..headerLength]) == 0)
      && Word(body, 6) % 0x2000 == 0 && options.LengthOk(|body|, Word(body, 2))
    else
      && |body| >= 40 && body[0] / 16 == 6 && !IsV4(body[8..24]) && !IsV4(body[24..40])
      && !(Word(body, 4) == 0 && body[6] == HOPOPT) && options.LengthOk(|body| - 40, Word(body, 4))
  }

  /**
  Exactly when classification reads outside the packet: the IP header passes and the first header
  behind it is cut short.
  */
  lemma ClassifyInBounds(ft: FiveTuple, body: seq<byte>, options: Options)
    ensures Classify(ft, body, options).outcome == OutOfBounds
       <==> ReachesWalk(body, options) && FirstReadShort(HeaderProtocol(body), |Payload(body)|)
    ensures |body| >= 1 && |Payload(body)| >= 8 ==> Classify(ft, body, options).outcome != OutOfBounds
  {
    if |body| >= 20 {
      forall ft: FiveTuple
        ensures ClassifyNextHeader(ft, Payload(body), HeaderProtocol(body), options).outcome == OutOfBounds
           <==> FirstReadShort(HeaderProtocol(body), |Payload(body)|)
      {
        WalkInBounds(ft, Payload(body), HeaderProtocol(body), options);
      }
    }
  }

  /** The bound is tight: an IPv6 header alone is read past its end exactly for these next headers. */
  lemma BareIpv6Header(ft: FiveTuple, body: seq<byte>, options: Options)
    requires |body| == 40 && body[0] / 16 == 6 && Word(body, 4) == 0 && body[6] != HOPOPT
    requires !IsV4(body[8..24]) && !IsV4(body[24..40])
    ensures Classify(ft, body, options).outcome == OutOfBounds
       <==> body[6] in {ICMP, IPV6_ROUTE, IPV6_FRAG, AH, IPV6_ICMP, IPV6_OPTS}
  {
    var ft' := ft.(l3 := Ipv6, src := body[8..24], dst := body[24..40]);
    WalkInBounds(ft', body[40..], body[6], options);
  }

  // ---------------------------------------------------------------- what acceptance guarantees

  /** Five-tuple and payload agree as the transport protocol's own header states them. */
  ghost predicate L4Agrees(ft: FiveTuple, l4: seq<byte>) {
    match ft.l4
    case 6 => |l4| >= 20 && Word(l4, 0) == ft.srcPort && Word(l4, 2) == ft.dstPort && L4ChecksumValid(ft, l4)
    case 17 => |l4| >= 8 && Word(l4, 0) == ft.srcPort && Word(l4, 2) == ft.dstPort && Word(l4, 4) == |l4|
    case _ => true
  }

  predicate Whole(outcome: Outcome) {
    outcome == Accepted(OK) || outcome == Accepted(UnclassifiedL4)
  }

  /** However many extension headers precede it, an accepted transport header is complete. */
  lemma {:induction false} AcceptedLength(ft0: FiveTuple, body: seq<byte>, proto: byte)
    requires Whole(ClassifyNextHeader(ft0, body, proto, DEFAULT_OPTIONS).outcome)
    ensures var l4 := ClassifyNextHeader(ft0, body, proto, DEFAULT_OPTIONS).ft.l4;
            (l4 == TCP ==> |body| >= 20) && (l4 == UDP ==> |body| >= 8)
    decreases |body|
  {
    var ft := ft0.(l4 := proto);
    if proto in {HOPOPT, IPV6_ROUTE, IPV6_OPTS} {
      assert !SkipOption(ft, body, 8, 1, DEFAULT_OPTIONS).outcome.OutOfBounds?;
      AcceptedLength(ft, body[(body[1] as int + 1) * 8..], body[0]);
    } else if proto == AH {
      assert !SkipOption(ft, body, 4, 2, DEFAULT_OPTIONS).outcome.OutOfBounds?;
      AcceptedLength(ft, body[(body[1] as int + 2) * 4..], body[0]);
    }
  }

  /** An accepted payload without extension headers agrees with the five-tuple, which keeps the IP fields. */
  lemma AcceptedPayload(ft0: FiveTuple, l4: seq<byte>, proto: byte)
    requires var v := ClassifyNextHeader(ft0, l4, proto, DEFAULT_OPTIONS);
             Whole(v.outcome) && v.ft.l4 == proto
    ensures var ft := ClassifyNextHeader(ft0, l4, proto, DEFAULT_OPTIONS).ft;
            L4Agrees(ft, l4) && ft.src == ft0.src && ft.dst == ft0.dst && ft.l3 == ft0.l3
  {
    KeepsAddresses(ft0, l4, proto, DEFAULT_OPTIONS);
  }

  /** The walk past the IP header changes neither the addresses nor the L3 type. */
  lemma {:induction false} KeepsAddresses(ft0: FiveTuple, body: seq<byte>, proto: byte, options: Options)
    ensures var ft := ClassifyNextHeader(ft0, body, proto, options).ft;
            ft.src == ft0.src && ft.dst == ft0.dst && ft.l3 == ft0.l3
    decreases |body|
  {
    var ft := ft0.(l4 := proto);
    if proto in {HOPOPT, IPV6_ROUTE, IPV6_OPTS, AH} && |body| >= 2 {
      var optionLength :=
        if proto == AH then (body[1] as int + 2) * 4 else (body[1] as int + 1) * 8;
      if !OptionLengthError(|body|, body[0], optionLength) {
        KeepsAddresses(ft, body[optionLength..], body[0], options);
      }
    } else if proto == IPV6_FRAG && |body| >= 1 && !OptionLengthError(|body|, body[0], 8) {
      KeepsAddresses(ft, body[8..], body[0], options);
    }
  }
}

/**
Which packets the classifier accepts, and as what, said without its code
(adapter/ph/src/classifier.rs): by taking a packet apart into its headers and adding up its words.

Protocols go by their assigned numbers: 6 is TCP, 17 UDP, 1 ICMP, 58 ICMPv6, 44 the fragment
header, and 59 says that nothing follows.
*/
module Acceptance {
  import opened Bytes
  import opened InternetChecksum
  import opened Classifier

  // ---------------------------------------------------------------- checksums as sums

  /** Words that verify: a multiple of 0xffff, but not no words at all. */
  predicate Verifies(sum: nat) {
    sum > 0 && sum % 0xffff == 0
  }

  /** The pseudo header adds both addresses, the protocol and the length, in any order. */
  lemma PseudoHeaderSum(ft: FiveTuple, proto: byte, len: nat)
    ensures WordSum(PseudoHeader(ft.l3, ft.src, ft.dst, proto, len)) == PseudoSum(ft, proto, len)
  {
    var high, low := Be16(len / 0x1_0000 % 0x1_0000), Be16(len % 0x1_0000);
    WordSumOfWord(len / 0x1_0000 % 0x1_0000);
    WordSumOfWord(len % 0x1_0000);
    if ft.l3 == Ipv4 {
      var src, dst := ReadAsV4(ft.src), ReadAsV4(ft.dst);
      assert WordSum([0, proto]) == proto as nat;
      WordSumAppend(src, dst);
      WordSumAppend(src + dst, [0, proto]);
      WordSumAppend(src + dst + [0, proto], low);
    } else {
      assert WordSum([0, 0, 0, proto]) == proto as nat by {
        assert [0, 0, 0, proto][2..] == [0, proto];
      }
      WordSumAppend(ft.src, ft.dst);
      WordSumAppend(ft.src + ft.dst, high);
      WordSumAppend(ft.src + ft.dst + high, low);
      WordSumAppend(ft.src + ft.dst + high + low, [0, 0, 0, proto]);
    }
  }

  lemma WordSumOfWord(x: u16)
    ensures WordSum(Be16(x)) == x
  {
    WordOfBe16(x);
  }

  function PseudoSum(ft: FiveTuple, proto: byte, len: nat): nat {
    if ft.l3 == Ipv4 then
      WordSum(ReadAsV4(ft.src)) + WordSum(ReadAsV4(ft.dst)) + proto as nat + len % 0x1_0000
    else
      WordSum(ft.src) + WordSum(ft.dst) + proto as nat + len / 0x1_0000 % 0x1_0000 + len % 0x1_0000
  }

  lemma L4ChecksumIsASum(ft: FiveTuple, t: seq<byte>)
    ensures L4ChecksumValid(ft, t) <==> Verifies(PseudoSum(ft, ft.l4, |t|) + WordSum(t))
  {
    var pseudo := PseudoHeader(ft.l3, ft.src, ft.dst, ft.l4, |t|);
    PseudoHeaderSum(ft, ft.l4, |t|);
    WordSumAppend(pseudo, t);
    ZeroChecksum(pseudo + t);
    assert L4Checksum(ft, ft.l4, t) == Checksum(pseudo + t);
    assert WordSum(pseudo + t) == PseudoSum(ft, ft.l4, |t|) + WordSum(t);
  }

  /** An IPv4 address in an address: behind ten zero bytes and two of all ones, and back. */
  lemma V4AddressIsMapped(a: seq<byte>, x: Address)
    requires |a| == 4
    ensures FromV4(a)[..12] == Zeros(10) + [0xff, 0xff] && ReadAsV4(FromV4(a)) == a
    ensures IsV4(x) <==> x == FromV4(ReadAsV4(x))
  {
  }

  // ---------------------------------------------------------------- taking a packet apart

  /**
  An extension header that is skipped, by the length its second byte gives: hop-by-hop options (0),
  routing (43), destination options (60), and authentication (51) in units of four.
  */
  predicate Skipped(kind: byte, h: seq<byte>) {
    || (kind in {0, 43, 60} && |h| >= 8 && |h| == (h[1] as int + 1) * 8)
    || (kind == 51 && |h| >= 8 && |h| == (h[1] as int + 2) * 4)
  }

  predicate IsExtension(kind: byte) {
    kind in {0, 43, 60, 51}
  }

  /**
  `body`, announced as `kind`, is a chain of extension headers with the payload `t` of protocol `l4`
  behind it. Behind each header there are eight bytes, unless it announces nothing.
  */
  predicate Chain(kind: byte, body: seq<byte>, headers: seq<seq<byte>>, l4: byte, t: seq<byte>)
    decreases |headers|
  {
    if headers == [] then kind == l4 && body == t && !IsExtension(l4)
    else
      var h := headers[0];
      && Skipped(kind, h) && h <= body
      && (h[0] == 59 || |body| >= |h| + 8)
      && Chain(h[0], body[|h|..], headers[1..], l4, t)
  }

  // ---------------------------------------------------------------- transports

  /** The ports of a transport header: type and code for ICMP, none for protocols not looked into. */
  function PortsOf(l4: byte, t: seq<byte>): (u16, u16) {
    if (l4 == 6 || l4 == 17) && |t| >= 4 then (Word(t, 0), Word(t, 2))
    else if (l4 == 1 || l4 == 58) && |t| >= 2 then (t[0] as int, t[1] as int)
    else (0, 0)
  }

  /** Lengths the transport header declares fit the payload. */
  predicate LengthsFit(l4: byte, t: seq<byte>, truncatedOk: bool) {
    match l4
    case 6 => |t| >= 20 && 20 <= t[12] as int / 16 * 4 <= |t|
    case 17 => |t| >= 8 && |t| <= Word(t, 4) && (truncatedOk || Word(t, 4) <= |t|)
    case _ => (l4 == 1 || l4 == 58) ==> |t| >= 4
  }

  /** The transport checksum verifies; a zero UDP field means there is none. */
  predicate SumsFit(ft: FiveTuple, l4: byte, t: seq<byte>) {
    match l4
    case 6 => Verifies(PseudoSum(ft, l4, |t|) + WordSum(t))
    case 17 => (|t| >= 8 && Word(t, 6) == 0) || Verifies(PseudoSum(ft, l4, |t|) + WordSum(t))
    case _ =>
      && (l4 == 1 ==> Verifies(WordSum(t)))
      && (l4 == 58 ==> Verifies(PseudoSum(ft, l4, |t|) + WordSum(t)))
  }

  predicate TransportFits(ft: FiveTuple, l4: byte, t: seq<byte>, options: Options) {
    && LengthsFit(l4, t, options.ignoreTruncated)
    && (!options.ignoreBadChecksums && !options.ignoreTruncated ==> SumsFit(ft, l4, t))
  }

  function AnswerFor(l4: byte): Answer {
    if l4 in {6, 17, 1, 58} then OK else UnclassifiedL4
  }

  /** A payload at the end of its chain: accepted whole exactly if it fits, with its own ports. */
  lemma TransportAccepted(ft0: FiveTuple, l4: byte, t: seq<byte>, options: Options)
    requires !IsExtension(l4) && l4 != 44
    ensures var v := ClassifyNextHeader(ft0, t, l4, options);
            && (Whole(v.outcome) <==> TransportFits(ft0, l4, t, options))
            && (Whole(v.outcome) ==>
                  v.outcome == Accepted(AnswerFor(l4)) && v.ft.l4 == l4 && (v.ft.srcPort, v.ft.dstPort) == PortsOf(l4, t))
  {
    L4ChecksumIsASum(ft0.(l4 := l4), t);
    ZeroChecksum(t);
  }

  /** Why one that does not fit is refused. */
  lemma TransportRefused(ft0: FiveTuple, l4: byte, t: seq<byte>, options: Options)
    requires !IsExtension(l4) && l4 != 44 && !FirstReadShort(l4, |t|)
    ensures var v := ClassifyNextHeader(ft0, t, l4, options);
            && (v.outcome == Rejected(BadL4Checksum) <==>
                  && (l4 == 6 ==> |t| >= 20) && (l4 == 17 ==> |t| >= 8)
                  && !options.ignoreBadChecksums && !options.ignoreTruncated && !SumsFit(ft0, l4, t))
            && (v.outcome.Rejected? ==> v.outcome.reason == BadL4Checksum || v.outcome.reason == PacketLength)
  {
    L4ChecksumIsASum(ft0.(l4 := l4), t);
    ZeroChecksum(t);
  }

  // ---------------------------------------------------------------- chains

  /** One extension header is skipped by its own length. */
  lemma SkipsOne(ft0: FiveTuple, kind: byte, body: seq<byte>, h: seq<byte>, options: Options)
    requires Skipped(kind, h) && h <= body && (h[0] == 59 || |body| >= |h| + 8)
    ensures ClassifyNextHeader(ft0, body, kind, options)
         == ClassifyNextHeader(ft0.(l4 := kind), body[|h|..], h[0], options)
  {
    assert body[0] == h[0] && body[1] == h[1];
  }

  /** The protocol field is overwritten, so what came before it does not matter. */
  lemma ProtocolIsOverwritten(ft0: FiveTuple, l4: byte, body: seq<byte>, kind: byte, options: Options)
    ensures ClassifyNextHeader(ft0.(l4 := l4), body, kind, options) == ClassifyNextHeader(ft0, body, kind, options)
  {
  }

  /** Behind any number of extension headers a payload is classified as it is on its own. */
  lemma {:induction false} ChainIsSkipped(
    ft0: FiveTuple, kind: byte, body: seq<byte>, headers: seq<seq<byte>>, l4: byte, t: seq<byte>, options: Options)
    requires Chain(kind, body, headers, l4, t)
    ensures ClassifyNextHeader(ft0, body, kind, options) == ClassifyNextHeader(ft0, t, l4, options)
    ensures !IsExtension(l4)
    decreases |headers|
  {
    if headers != [] {
      var h := headers[0];
      SkipsOne(ft0, kind, body, h, options);
      ProtocolIsOverwritten(ft0, kind, body[|h|..], h[0], options);
      ChainIsSkipped(ft0, h[0], body[|h|..], headers[1..], l4, t, options);
    }
  }

  /** A packet that is not refused for a length comes apart. */
  lemma {:induction false} ComesApart(ft0: FiveTuple, kind: byte, body: seq<byte>, options: Options)
    returns (headers: seq<seq<byte>>, l4: byte, t: seq<byte>)
    requires ClassifyNextHeader(ft0, body, kind, options).outcome.Accepted?
    ensures Chain(kind, body, headers, l4, t)
    decreases |body|
  {
    if IsExtension(kind) {
      var n := if kind == 51 then (body[1] as int + 2) * 4 else (body[1] as int + 1) * 8;
      var h := body[..n];
      assert Skipped(kind, h);
      SkipsOne(ft0, kind, body, h, options);
      var rest, l, u := ComesApart(ft0.(l4 := kind), h[0], body[n..], options);
      headers, l4, t := [h] + rest, l, u;
      assert headers[1..] == rest;
    } else {
      headers, l4, t := [], kind, body;
    }
  }

  ghost predicate FitsBehind(
    ft0: FiveTuple, kind: byte, body: seq<byte>, headers: seq<seq<byte>>, l4: byte, t: seq<byte>, options: Options)
  {
    Chain(kind, body, headers, l4, t) && l4 != 44 && TransportFits(ft0, l4, t, options)
  }

  /**
  Exactly which payloads are accepted whole: those that are a chain of extension headers with a
  fitting transport behind it, which alone decides protocol, ports and answer.
  */
  lemma PayloadAcceptedIff(ft0: FiveTuple, kind: byte, body: seq<byte>, options: Options)
    ensures var v := ClassifyNextHeader(ft0, body, kind, options);
            && (Whole(v.outcome) <==> exists headers, l4, t :: FitsBehind(ft0, kind, body, headers, l4, t, options))
            && forall headers, l4, t :: FitsBehind(ft0, kind, body, headers, l4, t, options) ==>
                 v.outcome == Accepted(AnswerFor(l4)) && v.ft.l4 == l4 && (v.ft.srcPort, v.ft.dstPort) == PortsOf(l4, t)
  {
    forall headers, l4, t | FitsBehind(ft0, kind, body, headers, l4, t, options)
      ensures var v := ClassifyNextHeader(ft0, body, kind, options);
              && v.outcome == Accepted(AnswerFor(l4)) && v.ft.l4 == l4
              && (v.ft.srcPort, v.ft.dstPort) == PortsOf(l4, t)
    {
      ChainIsSkipped(ft0, kind, body, headers, l4, t, options);
      TransportAccepted(ft0, l4, t, options);
    }
    if Whole(ClassifyNextHeader(ft0, body, kind, options).outcome) {
      var headers, l4, t := ComesApart(ft0, kind, body, options);
      ChainIsSkipped(ft0, kind, body, headers, l4, t, options);
      if l4 != 44 {
        TransportAccepted(ft0, l4, t, options);
        assert FitsBehind(ft0, kind, body, headers, l4, t, options);
      }
    }
  }

  /** A fragment header ends the chain: the first fragment or a later one, by its offset. */
  lemma FragmentAccepted(ft0: FiveTuple, t: seq<byte>, options: Options)
    ensures var v := ClassifyNextHeader(ft0, t, 44, options);
            && (v.outcome == Accepted(SubsequentFragment) <==>
                  |t| >= 8 && (t[0] == 59 || |t| >= 16) && Word(t, 2) / 8 != 0)
            && (v.outcome == Accepted(FirstFragment) <==>
                  |t| >= 8 && (t[0] == 59 || |t| >= 16) && Word(t, 2) / 8 == 0)
  {
    if |t| >= 8 {
      WalkInBounds(ft0.(l4 := 44), t[8..], t[0], options);
    }
  }

  // ---------------------------------------------------------------- whole packets

  /** The five-tuple the IP header alone gives. */
  function Addressed(ft0: FiveTuple, b: seq<byte>): FiveTuple
    requires |b| >= 20 && (b[0] / 16 == 6 ==> |b| >= 40)
  {
    if b[0] / 16 == 4 then ft0.(l3 := Ipv4, src := FromV4(b[12..16]), dst := FromV4(b[16..20]))
    else if b[0] / 16 == 6 then ft0.(l3 := Ipv6, src := b[8..24], dst := b[24..40])
    else ft0
  }

  /** The IP header passes and the packet is no fragment by it. */
  predicate Unfragmented(b: seq<byte>, options: Options) {
    ReachesWalk(b, options) && (b[0] / 16 == 4 ==> Word(b, 6) / 0x2000 % 2 == 0)
  }

  /**
  Exactly which packets are accepted whole: the IP header passes, the packet is no fragment, and the
  payload comes apart into extension headers and a transport that fits.
  */
  lemma AcceptedIff(ft0: FiveTuple, b: seq<byte>, options: Options)
    ensures Whole(Classify(ft0, b, options).outcome)
       <==> && Unfragmented(b, options)
            && exists headers, l4, t ::
                 FitsBehind(Addressed(ft0, b), HeaderProtocol(b), Payload(b), headers, l4, t, options)
    ensures Unfragmented(b, options) ==>
              Classify(ft0, b, options)
              == ClassifyNextHeader(Addressed(ft0, b), Payload(b), HeaderProtocol(b), options)
  {
    if Unfragmented(b, options) {
      PayloadAcceptedIff(Addressed(ft0, b), HeaderProtocol(b), Payload(b), options);
    }
  }

  /** Why a packet is refused for its IP header. */
  lemma HeaderRefused(ft0: FiveTuple, b: seq<byte>, options: Options)
    ensures Classify(ft0, b, options).outcome == Rejected(BadL3Checksum)
       <==> && |b| >= 20 && b[0] / 16 == 4 && 20 <= b[0] % 16 * 4 <= |b|
            && !options.ignoreBadChecksums && !options.ignoreTruncated && !Verifies(WordSum(b[..b[0] % 16 * 4]))
    ensures Classify(ft0, b, options).outcome == Rejected(MappedAddress)
       <==> |b| >= 40 && b[0] / 16 == 6 && (IsV4(b[8..24]) || IsV4(b[24..40]))
    ensures Classify(ft0, b, options).outcome == Rejected(Jumbogram)
       <==> |b| >= 40 && b[0] / 16 == 6 && !IsV4(b[8..24]) && !IsV4(b[24..40]) && Word(b, 4) == 0 && b[6] == 0
    ensures Classify(ft0, b, options).outcome == Accepted(NonIP)
       <==> b != [] && b[0] / 16 != 4 && b[0] / 16 != 6
  {
    if |b| >= 20 && b[0] / 16 == 4 && b[0] % 16 * 4 <= |b| {
      ZeroChecksum(b[..b[0] % 16 * 4]);
    }
    forall ft, t, kind
      ensures var o := ClassifyNextHeader(ft, t, kind, options).outcome;
              o.Rejected? ==> o.reason == PacketLength || o.reason == BadL4Checksum
      ensures ClassifyNextHeader(ft, t, kind, options).outcome != Accepted(NonIP)
    {
      WalkOutcomes(ft, t, kind, options);
    }
  }

  lemma {:induction false} WalkOutcomes(ft: FiveTuple, body: seq<byte>, kind: byte, options: Options)
    ensures var o := ClassifyNextHeader(ft, body, kind, options).outcome;
            && o != Accepted(NonIP) && (o.Rejected? ==> o.reason == PacketLength || o.reason == BadL4Checksum)
    decreases |body|
  {
    if IsExtension(kind) && |body| >= 2 {
      var n := if kind == 51 then (body[1] as int + 2) * 4 else (body[1] as int + 1) * 8;
      if !OptionLengthError(|body|, body[0], n) {
        WalkOutcomes(ft.(l4 := kind), body[n..], body[0], options);
      }
    } else if kind == 44 && |body| >= 1 && !OptionLengthError(|body|, body[0], 8) {
      WalkOutcomes(ft.(l4 := kind), body[8..], body[0], options);
    }
  }

  /** Fragments by the IPv4 header: any later one, and the first one whatever its payload. */
  lemma Ipv4Fragments(ft0: FiveTuple, b: seq<byte>, options: Options)
    requires |b| >= 20 && b[0] / 16 == 4 && 20 <= b[0] % 16 * 4 <= |b|
    requires !options.ignoreBadChecksums && !options.ignoreTruncated ==> Verifies(WordSum(b[..b[0] % 16 * 4]))
    ensures Word(b, 6) % 0x2000 != 0 ==>
              Classify(ft0, b, options) == Verdict(Addressed(ft0, b).(l4 := b[9]), Accepted(SubsequentFragment))
    ensures (&& Word(b, 6) % 0x2000 == 0 && Word(b, 6) / 0x2000 % 2 == 1
             && options.LengthOk(|b|, Word(b, 2)) && !FirstReadShort(b[9], |Payload(b)|)) ==>
              Classify(ft0, b, options).outcome == Accepted(FirstFragment)
  {
    ZeroChecksum(b[..b[0] % 16 * 4]);
    WalkInBounds(Addressed(ft0, b), Payload(b), b[9], options);
  }
}

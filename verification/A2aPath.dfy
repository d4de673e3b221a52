/**
The path of an actor's packet from adapter to adapter (adapter/ph/src/fastpath.rs): the sending
adapter's MAC and compression, the transit hops with their headers and link MACs, and the
receiving adapter's expansion and MAC check.
*/
module A2aPath {
  import opened Bytes
  import opened Classifier
  import opened Compress
  import opened CompressInPlace
  import opened AcceptedPackets
  import opened Packets
  import opened PacketSecurity
  import LinkSecurity

  /** Adapter-to-adapter hash, keyed when both adapters published keys; truncated to the MAC size. */
  type A2aMac = f: (Option<Key>, seq<byte>) -> seq<byte> | forall k, b :: |f(k, b)| == MAC_SIZE
    witness (_, _) => [0, 0, 0, 0, 0, 0, 0, 0]

  /** A flow as one adapter knows it: compression, five-tuple and MAC key. */
  datatype Flow = Flow(mode: CompressionMode, ft: FiveTuple, key: Option<Key>)

  const A2A_HEADER: seq<byte> := [0]

  // ---------------------------------------------------------------- the sending adapter

  function Sent(mac: A2aMac, flow: Flow, b: seq<byte>): (r: seq<byte>)
    requires Compressible(flow.ft.l3, flow.ft.l4, |b|)
  {
    A2A_HEADER + Compressed(flow.mode, flow.ft.l3, flow.ft.l4, b) + mac(flow.key, b)
  }

  /** `actor_output_post_classify` on an active flow. */
  method PostClassify(mac: A2aMac, flow: Flow, pkt: Packet)
    requires pkt.Valid() && Compressible(flow.ft.l3, flow.ft.l4, pkt.len)
    requires pkt.Tailroom() >= MAC_SIZE && (flow.ft.l3 == NoL3 ==> pkt.Headroom() >= |A2A_HEADER|)
    modifies pkt, pkt.buf
    ensures pkt.Valid() && pkt.Body() == Sent(mac, flow, old(pkt.Body()))
  {
    var a2aMac := mac(flow.key, pkt.Body());
    CompressPacket(flow.mode, flow.ft.l3, flow.ft.l4, pkt);
    CompressedShrinks(flow.mode, flow.ft.l3, flow.ft.l4, old(pkt.Body()));
    pkt.Put(a2aMac);
    pkt.PushHeader(A2A_HEADER);
    assert pkt.Body() == A2A_HEADER + (Compressed(flow.mode, flow.ft.l3, flow.ft.l4, old(pkt.Body())) + a2aMac);
  }

  /** `actor_output` on a classified packet of an active flow: nothing is sent once the hop count is used up. */
  method ActorOutput(mac: A2aMac, flow: Flow, pkt: Packet) returns (expired: bool)
    requires pkt.Valid() && Compressible(flow.ft.l3, flow.ft.l4, pkt.len)
    requires pkt.Tailroom() >= MAC_SIZE && (flow.ft.l3 == NoL3 ==> pkt.Headroom() >= |A2A_HEADER|)
    modifies pkt, pkt.buf
    ensures pkt.Valid() && expired == TtlExpires(flow.ft.l3, old(pkt.Body()))
    ensures !expired ==> pkt.Body() == Sent(mac, flow, TtlDecremented(flow.ft.l3, old(pkt.Body())))
  {
    expired := DecrementTtl(flow.ft.l3, pkt);
    if !expired {
      PostClassify(mac, flow, pkt);
    }
  }

  /** Compression of an IP packet frees room for the A2A header in front. */
  lemma CompressedShrinks(mode: CompressionMode, l3: L3Type, l4: byte, b: seq<byte>)
    requires Compressible(l3, l4, |b|)
    ensures |Compressed(mode, l3, l4, b)| <= |b| - (if l3 == NoL3 then 0 else 13)
  {
  }

  // ---------------------------------------------------------------- transit hops

  /** One link: the associations of its two ends, and the stream on it. */
  datatype Hop = Hop(sender: LinkSecurity.Sa, receiver: LinkSecurity.Sa, stream: seq<byte>)

  ghost predicate Joined(hop: Hop) {
    LinkSecurity.Mirrored(hop.sender, hop.receiver) && |hop.stream| == 4
  }

  /** `forward`: the base header of a transit packet and the per-flow header in front. */
  function TransitMessage(hop: Hop, inner: seq<byte>): seq<byte> {
    [LinkSecurity.TRANSIT_PACKET, 0] + (hop.stream + inner)
  }

  function OnWire(mac: Mac, hop: Hop, inner: seq<byte>): seq<byte> {
    LinkSecurity.Egress(mac, Some(hop.sender), 0, TransitMessage(hop, inner)).value
  }

  /** What goes on the wire: ZPI, base header, stream and message, and the MAC of all of it. */
  lemma OnWireExactly(mac: Mac, hop: Hop, inner: seq<byte>)
    requires |hop.stream| == 4
    ensures var w := [hop.sender.sendHmacZpi, 0, 0] + hop.stream + inner;
            OnWire(mac, hop, inner) == w + mac(hop.sender.sendKey, w)
  {
    assert [hop.sender.sendHmacZpi, 0, 0] + hop.stream + inner
        == [hop.sender.sendHmacZpi] + ([LinkSecurity.TRANSIT_PACKET, 0] + (hop.stream + inner));
  }

  method EgressTransit(mac: Mac, hop: Hop, pkt: Packet)
    requires pkt.Valid() && |hop.stream| == 4 && pkt.Headroom() >= 7 && pkt.Tailroom() >= MAC_SIZE
    modifies pkt, pkt.buf
    ensures pkt.Valid() && pkt.offset == old(pkt.offset) - 7
    ensures pkt.Body() == OnWire(mac, hop, old(pkt.Body()))
  {
    pkt.PushHeader(hop.stream);
    pkt.PushHeader([LinkSecurity.TRANSIT_PACKET, 0]);
    pkt.PushHeader([hop.sender.sendHmacZpi]);
    EncryptHmac(mac, hop.sender.sendKey, pkt);
  }

  /** The receiving end of a transit packet: link MAC checked, ZPI, base and per-flow headers popped. */
  function OffWire(mac: Mac, hop: Hop, wire: seq<byte>): Option<seq<byte>> {
    var arrival := LinkSecurity.Ingress(mac, true, Some(hop.receiver), wire);
    if arrival.Accepted? && |arrival.message| >= 6 && arrival.message[0] == LinkSecurity.TRANSIT_PACKET
    then Some(arrival.message[6..])
    else None
  }

  method IngressTransit(mac: Mac, hop: Hop, pkt: Packet) returns (ok: bool)
    requires pkt.Valid() && hop.receiver.codec.Bounded() && pkt.len <= PACKET_BUFFER_SIZE
    modifies pkt, pkt.buf
    ensures pkt.Valid() && ok == OffWire(mac, hop, old(pkt.Body())).Some?
    ensures ok ==> pkt.Body() == OffWire(mac, hop, old(pkt.Body())).value
    ensures ok && old(pkt.Body())[0] == hop.receiver.recvHmacZpi ==> pkt.offset == old(pkt.offset) + 7
  {
    if pkt.len < 1 {
      return false;
    }
    var zpi := pkt.Body()[0];
    var r;
    if zpi == hop.receiver.recvHmacZpi {
      r := DecryptHmac(mac, hop.receiver.recvKey, pkt);
    } else if zpi == hop.receiver.recvEncrZpi {
      r := DecryptFull(hop.receiver.codec, hop.receiver.padlen, pkt);
    } else {
      return false;
    }
    if !r.Ok? || pkt.len < 7 || zpi == LinkSecurity.ZPI_0 || pkt.Body()[1] != LinkSecurity.TRANSIT_PACKET {
      return false;
    }
    pkt.Advance(1);
    pkt.Advance(2);
    pkt.Advance(4);
    return true;
  }

  /** Exactly what a hop takes off the wire under its MAC: a transit message with the MAC of all of it. */
  lemma OffWireExactly(mac: Mac, hop: Hop, wire: seq<byte>, inner: seq<byte>)
    requires wire != [] && wire[0] == hop.receiver.recvHmacZpi != LinkSecurity.ZPI_0
    ensures OffWire(mac, hop, wire) == Some(inner)
       <==> exists header: seq<byte> ::
              && |header| == 6 && header[0] == LinkSecurity.TRANSIT_PACKET
              && var w := [hop.receiver.recvHmacZpi] + (header + inner); wire == w + mac(hop.receiver.recvKey, w)
  {
    if OffWire(mac, hop, wire) == Some(inner) {
      var message := LinkSecurity.Ingress(mac, true, Some(hop.receiver), wire).message;
      LinkSecurity.IngressUnderMac(mac, true, hop.receiver, wire, message);
      assert message == message[..6] + inner;
    }
    forall header: seq<byte> |
      && |header| == 6 && header[0] == LinkSecurity.TRANSIT_PACKET
      && var w := [hop.receiver.recvHmacZpi] + (header + inner); wire == w + mac(hop.receiver.recvKey, w)
      ensures OffWire(mac, hop, wire) == Some(inner)
    {
      LinkSecurity.IngressUnderMac(mac, true, hop.receiver, wire, header + inner);
      assert (header + inner)[6..] == inner;
    }
  }

  lemma HopIsTransparent(mac: Mac, hop: Hop, inner: seq<byte>)
    requires Joined(hop)
    ensures OffWire(mac, hop, OnWire(mac, hop, inner)) == Some(inner)
  {
    var message := TransitMessage(hop, inner);
    LinkSecurity.EstablishedLink(mac, hop.sender, hop.receiver, 0, message);
    assert message[6..] == inner;
  }

  /** The packet after any number of hops, `None` once a hop refuses it. */
  function Carried(mac: Mac, hops: seq<Hop>, inner: seq<byte>): Option<seq<byte>> {
    if hops == [] then Some(inner) else
    var next := OffWire(mac, hops[0], OnWire(mac, hops[0], inner));
    if next.None? then None else Carried(mac, hops[1..], next.value)
  }

  lemma {:induction false} PathIsTransparent(mac: Mac, hops: seq<Hop>, inner: seq<byte>)
    requires forall i :: 0 <= i < |hops| ==> Joined(hops[i])
    ensures Carried(mac, hops, inner) == Some(inner)
  {
    if hops != [] {
      HopIsTransparent(mac, hops[0], inner);
      PathIsTransparent(mac, hops[1..], inner);
    }
  }

  /** The same in place: the hops reuse one stretch of head- and tailroom. */
  method CarryAcross(mac: Mac, hops: seq<Hop>, pkt: Packet)
    requires pkt.Valid() && pkt.Headroom() >= 7 && pkt.Tailroom() >= MAC_SIZE && pkt.buf.Length <= PACKET_BUFFER_SIZE
    requires forall i :: 0 <= i < |hops| ==> Joined(hops[i])
    modifies pkt, pkt.buf
    ensures pkt.Valid() && pkt.offset == old(pkt.offset) && pkt.Body() == old(pkt.Body())
  {
    ghost var inner := pkt.Body();
    for i := 0 to |hops|
      invariant pkt.Valid() && pkt.offset == old(pkt.offset) && pkt.Body() == inner
    {
      EgressTransit(mac, hops[i], pkt);
      HopIsTransparent(mac, hops[i], inner);
      var ok := IngressTransit(mac, hops[i], pkt);
    }
  }

  // ---------------------------------------------------------------- the receiving adapter

  datatype Delivery = Queued(packet: seq<byte>) | Dropped(reason: DropReason) | Panicked

  datatype DropReason = TtlExpired | BadA2aStructure | UnknownStream | NotOwner | BadMicv

  /** `actor_input`, for the flow the stream id names, if any. */
  function Received(mac: A2aMac, flow: Option<Flow>, owned: bool, inner: seq<byte>): Delivery {
    if |inner| < 1 then Dropped(BadA2aStructure)
    else if inner[0] != 0 then Delivery.Panicked
    else if |inner| - 1 < MAC_SIZE then Dropped(BadA2aStructure)
    else if flow.None? then Dropped(UnknownStream)
    else if !owned then Dropped(NotOwner)
    else
      var c := inner[1..|inner| - MAC_SIZE];
      if !Expandable(flow.value.mode, flow.value.ft, c) then Delivery.Panicked else
      var b := Expanded(flow.value.mode, flow.value.ft, c);
      if mac(flow.value.key, b) == inner[|inner| - MAC_SIZE..] then Queued(b) else Dropped(BadMicv)
  }

  /** The checks ahead of expansion are passed. */
  predicate ReachesExpansion(flow: Option<Flow>, owned: bool, inner: seq<byte>) {
    |inner| >= 1 + MAC_SIZE && inner[0] == 0 && flow.Some? && owned
  }

  /** Exactly what is queued: the expansion of a packet that carries the expansion's own MAC. */
  lemma ReceivedQueuesExactly(mac: A2aMac, flow: Option<Flow>, owned: bool, inner: seq<byte>, b: seq<byte>)
    ensures Received(mac, flow, owned, inner) == Queued(b)
       <==> && flow.Some? && owned
            && exists c :: && Expandable(flow.value.mode, flow.value.ft, c)
                           && b == Expanded(flow.value.mode, flow.value.ft, c)
                           && inner == A2A_HEADER + c + mac(flow.value.key, b)
  {
    if flow.Some? {
      forall c | Expandable(flow.value.mode, flow.value.ft, c) && b == Expanded(flow.value.mode, flow.value.ft, c)
        && inner == A2A_HEADER + c + mac(flow.value.key, b)
        ensures inner[0] == 0 && inner[1..|inner| - MAC_SIZE] == c
             && inner[|inner| - MAC_SIZE..] == mac(flow.value.key, b)
      {
      }
      if Received(mac, flow, owned, inner) == Queued(b) {
        var c := inner[1..|inner| - MAC_SIZE];
        assert inner == A2A_HEADER + c + inner[|inner| - MAC_SIZE..];
      }
    }
  }

  /** Why the rest is dropped. */
  lemma ReceivedDropsExactly(mac: A2aMac, flow: Option<Flow>, owned: bool, inner: seq<byte>)
    requires inner != [] ==> inner[0] == 0
    ensures var r := Received(mac, flow, owned, inner);
            && (r == Dropped(BadA2aStructure) <==> |inner| < 1 + MAC_SIZE)
            && (r == Dropped(UnknownStream) <==> |inner| >= 1 + MAC_SIZE && flow.None?)
            && (r == Dropped(NotOwner) <==> |inner| >= 1 + MAC_SIZE && flow.Some? && !owned)
            && r != Dropped(TtlExpired)
  {
  }

  /**
  Exactly when `actor_input` panics, before it has looked at the MAC: the A2A byte is not zero, or
  the packet is too short to be expanded.
  */
  lemma ReceivedPanicsIff(mac: A2aMac, flow: Option<Flow>, owned: bool, inner: seq<byte>)
    ensures Received(mac, flow, owned, inner).Panicked?
       <==> (|inner| >= 1 && inner[0] != 0)
            || (ReachesExpansion(flow, owned, inner)
                && !Expandable(flow.value.mode, flow.value.ft, inner[1..|inner| - MAC_SIZE]))
  {
  }

  /** Nothing but a MAC, on an IPv6 flow. */
  lemma BareMacPanics(mac: A2aMac, flow: Flow, inner: seq<byte>)
    requires flow.ft.l3 == Ipv6 && |inner| == 1 + MAC_SIZE && inner[0] == 0
    ensures Received(mac, Some(flow), true, inner) == Delivery.Panicked
  {
  }

  /** The expanded packet does not fit in front of where the compressed one ends. */
  predicate Cramped(flow: Flow, c: seq<byte>, headroom: nat) {
    Expandable(flow.mode, flow.ft, c) && |Expanded(flow.mode, flow.ft, c)| > |c| + headroom
  }

  /** 41 bytes, one of them the A2A byte's, are always enough. */
  lemma RoomToExpand(flow: Flow, c: seq<byte>, headroom: nat)
    requires headroom >= 41
    ensures !Cramped(flow, c, headroom)
  {
  }

  method TakeA2aMac(pkt: Packet) returns (a2aMac: seq<byte>)
    requires pkt.Valid() && pkt.len >= 1 + MAC_SIZE
    modifies pkt
    ensures pkt.Valid() && pkt.offset == old(pkt.offset) + 1
    ensures pkt.Body() == old(pkt.Body())[1..old(pkt.len) - MAC_SIZE]
    ensures a2aMac == old(pkt.Body())[old(pkt.len) - MAC_SIZE..]
  {
    pkt.Advance(1);
    a2aMac := pkt.Body()[pkt.len - MAC_SIZE..];
    pkt.ShrinkBy(MAC_SIZE);
  }

  method ExpandAndCheck(mac: A2aMac, flow: Flow, a2aMac: seq<byte>, pkt: Packet) returns (r: Delivery)
    requires pkt.Valid()
    modifies pkt, pkt.buf
    ensures pkt.Valid()
    ensures var c := old(pkt.Body());
            if !Expandable(flow.mode, flow.ft, c) || Cramped(flow, c, old(pkt.Headroom())) then r == Delivery.Panicked
            else
              var b := Expanded(flow.mode, flow.ft, c);
              r == (if mac(flow.key, b) == a2aMac then Queued(b) else Dropped(BadMicv))
    ensures r.Queued? ==> pkt.Body() == r.packet
  {
    if !Expandable(flow.mode, flow.ft, pkt.Body()) || Cramped(flow, pkt.Body(), pkt.Headroom()) {
      return Delivery.Panicked;
    }
    ExpandPacket(flow.mode, flow.ft, pkt);
    if mac(flow.key, pkt.Body()) != a2aMac {
      return Dropped(BadMicv);
    }
    return Queued(pkt.Body());
  }

  /** In place, expansion also panics on a packet without the headroom for it. */
  method ActorInput(mac: A2aMac, flow: Option<Flow>, owned: bool, pkt: Packet) returns (r: Delivery)
    requires pkt.Valid()
    modifies pkt, pkt.buf
    ensures pkt.Valid()
    ensures var inner := old(pkt.Body());
            r == if ReachesExpansion(flow, owned, inner)
                    && Cramped(flow.value, inner[1..|inner| - MAC_SIZE], old(pkt.Headroom()) + 1)
                 then Delivery.Panicked else Received(mac, flow, owned, inner)
    ensures r.Queued? ==> pkt.Body() == r.packet
  {
    if pkt.len < 1 {
      return Dropped(BadA2aStructure);
    }
    if pkt.Body()[0] != 0 {
      return Delivery.Panicked;
    }
    if pkt.len - 1 < MAC_SIZE {
      return Dropped(BadA2aStructure);
    }
    var a2aMac := TakeA2aMac(pkt);
    if flow.None? {
      return Dropped(UnknownStream);
    }
    if !owned {
      return Dropped(NotOwner);
    }
    r := ExpandAndCheck(mac, flow.value, a2aMac, pkt);
  }

  // ---------------------------------------------------------------- end to end

  /** The receiver's flow is the sender's; ports that the classifier leaves open may differ. */
  predicate SameFlow(tx: Flow, rx: Flow) {
    && tx.mode == rx.mode && tx.key == rx.key
    && tx.ft.l3 == rx.ft.l3 && tx.ft.l4 == rx.ft.l4 && tx.ft.src == rx.ft.src && tx.ft.dst == rx.ft.dst
    && (tx.mode.srcPort ==> tx.ft.srcPort == rx.ft.srcPort)
    && (tx.mode.dstPort ==> tx.ft.dstPort == rx.ft.dstPort)
  }

  lemma ExpandsAlike(tx: Flow, rx: Flow, c: seq<byte>)
    requires SameFlow(tx, rx) && Expandable(tx.mode, tx.ft, c)
    ensures Expandable(rx.mode, rx.ft, c) && Expanded(rx.mode, rx.ft, c) == Expanded(tx.mode, tx.ft, c)
  {
    assert forall s :: L4Checksum(tx.ft, TCP, s) == L4Checksum(rx.ft, TCP, s);
    forall s | L4Expandable(tx.mode, tx.ft.l4, |s|)
      ensures ExpandedL4(rx.mode, rx.ft, s) == ExpandedL4(tx.mode, tx.ft, s)
    {
      if tx.ft.l4 == TCP || tx.ft.l4 == UDP {
        assert RestoredPorts(rx.mode, rx.ft, s) == RestoredPorts(tx.mode, tx.ft, s);
      }
    }
  }

  /** What arrives when `b` is sent over the hops. */
  function Delivered(a2a: A2aMac, link: Mac, tx: Flow, rx: Flow, hops: seq<Hop>, b: seq<byte>): Option<Delivery>
    requires Compressible(tx.ft.l3, tx.ft.l4, |b|)
  {
    var arrived := Carried(link, hops, Sent(a2a, tx, b));
    if arrived.None? then None else Some(Received(a2a, Some(rx), true, arrived.value))
  }

  /** Over any path of mirrored links the receiver sees the round trip of the packet, and checks its MAC. */
  lemma DeliversRebuilt(a2a: A2aMac, link: Mac, tx: Flow, rx: Flow, hops: seq<Hop>, b: seq<byte>)
    requires FullHeaders(tx.ft, b) && SameFlow(tx, rx)
    requires forall i :: 0 <= i < |hops| ==> Joined(hops[i])
    ensures Compressible(tx.ft.l3, tx.ft.l4, |b|)
    ensures var r := Rebuilt(tx.mode, tx.ft, b);
            Delivered(a2a, link, tx, rx, hops, b)
            == Some(if a2a(tx.key, r) == a2a(tx.key, b) then Queued(r) else Dropped(BadMicv))
  {
    RoundTrip(tx.mode, tx.ft, b);
    var c := Compressed(tx.mode, tx.ft.l3, tx.ft.l4, b);
    var inner := Sent(a2a, tx, b);
    PathIsTransparent(link, hops, inner);
    assert inner[1..|inner| - MAC_SIZE] == c && inner[|inner| - MAC_SIZE..] == a2a(tx.key, b);
    ExpandsAlike(tx, rx, c);
  }

  /** What becomes of a classified packet an actor hands to the sending adapter. */
  function FromActor(a2a: A2aMac, link: Mac, tx: Flow, rx: Flow, hops: seq<Hop>, b: seq<byte>): Option<Delivery>
    requires Compressible(tx.ft.l3, tx.ft.l4, |b|)
  {
    if TtlExpires(tx.ft.l3, b) then Some(Dropped(TtlExpired))
    else Delivered(a2a, link, tx, rx, hops, TtlDecremented(tx.ft.l3, b))
  }

  /** Queued as it was sent, with one hop less in the byte at `at`. */
  predicate Arrives(delivery: Option<Delivery>, b: seq<byte>, at: nat)
    requires at < |b|
  {
    delivery.Some? && delivery.value.Queued? && OneLess(b, delivery.value.packet, at)
  }

  lemma OneLessIsUnique(b: seq<byte>, r: seq<byte>, q: seq<byte>, at: nat)
    requires at < |b| && OneLess(b, r, at) && OneLess(b, q, at)
    ensures r == q
  {
    forall i | 0 <= i < |b|
      ensures r[i] == q[i]
    {
    }
  }

  /**
  IPv6, end to end: a packet the sending adapter accepted arrives byte-identical but for its hop
  limit, over any number of hops, exactly when it has a hop left, its IP header itself names the
  transport protocol and its TCP checksum, if it has one, is canonical.
  */
  lemma Ipv6EndToEnd(a2a: A2aMac, link: Mac, tx: Flow, rx: Flow, hops: seq<Hop>, b: seq<byte>)
    requires AcceptedAs(b, tx.ft) && tx.ft.l3 == Ipv6 && SameFlow(tx, rx)
    requires forall i :: 0 <= i < |hops| ==> Joined(hops[i])
    ensures FullHeaders(tx.ft, b) && Compressible(Ipv6, tx.ft.l4, |b|)
    ensures Arrives(FromActor(a2a, link, tx, rx, hops, b), b, 7)
       <==> b[7] > 1 && b[6] == tx.ft.l4 && (tx.ft.l4 == TCP ==> Word(b, 56) != 0xffff)
    ensures FromActor(a2a, link, tx, rx, hops, b) == Some(Dropped(TtlExpired)) <==> b[7] <= 1
  {
    LoweredHopLimitSurvives(tx.mode, tx.ft, b);
    var sent := TtlDecremented(Ipv6, b);
    DeliversRebuilt(a2a, link, tx, rx, hops, sent);
    assert OneLess(b, sent, 7);
    var delivery := FromActor(a2a, link, tx, rx, hops, b);
    if Arrives(delivery, b, 7) {
      OneLessIsUnique(b, sent, delivery.value.packet, 7);
    }
  }

  /**
  IPv4, end to end: no accepted packet arrives as it was sent. Without a hop left it is dropped,
  and otherwise for its MAC, unless the hash collides on the two headers.
  */
  lemma Ipv4EndToEnd(a2a: A2aMac, link: Mac, tx: Flow, rx: Flow, hops: seq<Hop>, b: seq<byte>)
    requires AcceptedAs(b, tx.ft) && tx.ft.l3 == Ipv4 && SameFlow(tx, rx)
    requires forall i :: 0 <= i < |hops| ==> Joined(hops[i])
    ensures FullHeaders(tx.ft, b) && FullHeaders(tx.ft, TtlDecremented(Ipv4, b))
    ensures Compressible(Ipv4, tx.ft.l4, |b|)
    ensures var sent := TtlDecremented(Ipv4, b);
            var r := Rebuilt(tx.mode, tx.ft, sent);
            var delivery := FromActor(a2a, link, tx, rx, hops, b);
            && OneLess(b, sent, 8) && !Arrives(delivery, b, 8)
            && (delivery == Some(Queued(r)) <==> b[8] > 1 && a2a(tx.key, r) == a2a(tx.key, sent))
            && (delivery == Some(Dropped(TtlExpired)) <==> b[8] <= 1)
            && (delivery == Some(Dropped(BadMicv)) <==> b[8] > 1 && a2a(tx.key, r) != a2a(tx.key, sent))
  {
    AcceptedHeader(b, tx.ft);
    StaleIpv4Checksum(tx.mode, tx.ft, b);
    var sent := TtlDecremented(Ipv4, b);
    DeliversRebuilt(a2a, link, tx, rx, hops, sent);
    assert OneLess(b, sent, 8);
    var delivery := FromActor(a2a, link, tx, rx, hops, b);
    if Arrives(delivery, b, 8) {
      OneLessIsUnique(b, sent, delivery.value.packet, 8);
    }
  }
}

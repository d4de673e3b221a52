/**
Choosing a packet's protection on one end of a link and undoing it on the other
(adapter/ph/src/fastpath.rs: `substrate_egress_common`, `decrypt`, `decrypt_with_sa` and the start
of `substrate_ingress`).
*/
module LinkSecurity {
  import opened Bytes
  import opened PacketSecurity

  const TRANSIT_PACKET: byte := 0
  const KEY_MANAGEMENT: byte := 129
  const ZPI_0: byte := 0

  /** One end's established security association. */
  datatype Sa = Sa(
    sendHmacZpi: byte, sendEncrZpi: byte, recvHmacZpi: byte, recvEncrZpi: byte,
    sendKey: Key, recvKey: Key, codec: Codec, padlen: nat)

  /** The two ends as keying leaves them: each receives what the other sends, under distinct nonzero ZPIs. */
  ghost predicate Mirrored(a: Sa, b: Sa) {
    && a.sendHmacZpi == b.recvHmacZpi && a.sendEncrZpi == b.recvEncrZpi && a.sendKey == b.recvKey
    && b.codec.Opens(a.codec, b.padlen) && a.codec.Bounded() && b.codec.Bounded()
    && a.sendHmacZpi != a.sendEncrZpi && a.sendHmacZpi != ZPI_0 && a.sendEncrZpi != ZPI_0
  }

  /** What goes on the wire for a ZDP message, which starts with its base header; `None` on an encryption error. */
  function Egress(mac: Mac, sa: Option<Sa>, nonce: nat, message: seq<byte>): Option<seq<byte>> {
    if |message| < 2 then None
    else if message[0] == KEY_MANAGEMENT || sa.None? then
      Some([ZPI_0] + message + NullTrailer(message))
    else if message[0] == TRANSIT_PACKET then
      var body := [sa.value.sendHmacZpi] + message;
      Some(body + mac(sa.value.sendKey, body))
    else
      var e := Encrypted(sa.value.codec, nonce, [sa.value.sendEncrZpi] + message);
      if e.Sealed? then Some(e.bytes) else None
  }

  datatype DropReason = Decryption(error: DecryptError) | NotUnderZpi0

  datatype Arrival = Accepted(message: seq<byte>) | Dropped(reason: DropReason)

  /** Undo the protection named by the packet's ZPI; `known` says whether the sender's link is. */
  function Ingress(mac: Mac, known: bool, sa: Option<Sa>, wire: seq<byte>): Arrival {
    if |wire| < 1 then Dropped(Decryption(BadStructure))
    else if sa.Some? then
      if wire[0] == sa.value.recvHmacZpi then
        var r := DecryptedHmac(mac, sa.value.recvKey, wire);
        if r.Ok? then AfterZpi(wire[0], known, wire[..|wire| - MAC_SIZE]) else Dropped(Decryption(r.error))
      else if wire[0] == sa.value.recvEncrZpi then
        var d := Decrypted(sa.value.codec, sa.value.padlen, wire);
        if |wire| - ZPI_SIZE < sa.value.padlen then Dropped(Decryption(BadStructure))
        else if d.Sealed? then AfterZpi(wire[0], known, d.bytes) else Dropped(Decryption(DecryptionFailure))
      else Dropped(Decryption(UnknownZpi))
    else if wire[0] != ZPI_0 && known then Dropped(Decryption(UnknownZpi))
    else
      var r := DecryptedNull(wire);
      if r.Ok? then AfterZpi(wire[0], known, wire[..|wire| - 2]) else Dropped(Decryption(r.error))
  }

  /** Pop the ZPI; on a known link only key management may come under ZPI 0. */
  function AfterZpi(zpi: byte, known: bool, body: seq<byte>): Arrival {
    if |body| < 1 then Dropped(Decryption(BadStructure))
    else if !known then Accepted(body[1..])
    else if |body| < 3 then Dropped(Decryption(BadStructure))
    else if zpi == ZPI_0 && body[1] != KEY_MANAGEMENT then Dropped(NotUnderZpi0)
    else Accepted(body[1..])
  }

  /** What a message is protected by: its type and the association decide. */
  lemma EgressExactly(mac: Mac, sa: Option<Sa>, nonce: nat, message: seq<byte>)
    requires |message| >= 2
    ensures var wire := Egress(mac, sa, nonce, message);
            if message[0] == KEY_MANAGEMENT || sa.None? then
              wire.Some? && wire.value[..1 + |message|] == [ZPI_0] + message && DecryptedNull(wire.value).Ok?
            else if message[0] == TRANSIT_PACKET then
              var w := [sa.value.sendHmacZpi] + message; wire == Some(w + mac(sa.value.sendKey, w))
            else
              var sealed := sa.value.codec.encrypt(nonce, message);
              wire == if sealed.Sealed? then Some([sa.value.sendEncrZpi] + sealed.bytes) else None
  {
    if message[0] == KEY_MANAGEMENT || sa.None? {
      NullAcceptsExactly(ZPI_0, message, NullTrailer(message));
    } else if message[0] != TRANSIT_PACKET {
      assert ([sa.value.sendEncrZpi] + message)[ZPI_SIZE..] == message;
    }
  }

  /** Long enough for what the fast path reads of it, and not in the clear on a known link. */
  predicate Readable(zpi: byte, known: bool, m: seq<byte>) {
    known ==> |m| >= 2 && (zpi == ZPI_0 ==> m[0] == KEY_MANAGEMENT)
  }

  /** Under the MAC's ZPI exactly a readable message with the MAC of all that precedes it is accepted. */
  lemma IngressUnderMac(mac: Mac, known: bool, sa: Sa, wire: seq<byte>, m: seq<byte>)
    requires wire != [] && wire[0] == sa.recvHmacZpi
    ensures Ingress(mac, known, Some(sa), wire) == Accepted(m)
       <==> Readable(sa.recvHmacZpi, known, m)
            && var w := [sa.recvHmacZpi] + m; wire == w + mac(sa.recvKey, w)
  {
    var w := [sa.recvHmacZpi] + m;
    if |wire| >= MAC_SIZE {
      var p := wire[..|wire| - MAC_SIZE];
      assert wire == p + wire[|wire| - MAC_SIZE..];
      if p != [] {
        assert p == [wire[0]] + p[1..];
      }
    }
    if wire == w + mac(sa.recvKey, w) {
      assert wire[..|wire| - MAC_SIZE] == w && wire[|wire| - MAC_SIZE..] == mac(sa.recvKey, w) && w[1..] == m;
    }
  }

  /** Under the cipher's ZPI exactly a readable message that the codec opens is. */
  lemma IngressUnderCipher(mac: Mac, known: bool, sa: Sa, wire: seq<byte>, m: seq<byte>)
    requires wire != [] && wire[0] == sa.recvEncrZpi != sa.recvHmacZpi
    ensures Ingress(mac, known, Some(sa), wire) == Accepted(m)
       <==> Readable(sa.recvEncrZpi, known, m) && |wire| - 1 >= sa.padlen && sa.codec.decrypt(wire[1..]) == Sealed(m)
  {
    var d := sa.codec.decrypt(wire[1..]);
    if d.Sealed? {
      assert ([wire[0]] + d.bytes)[1..] == d.bytes;
    }
  }

  /** No other ZPI is accepted under an association, and without one only null protection is. */
  lemma IngressOtherwise(mac: Mac, known: bool, sa: Option<Sa>, wire: seq<byte>, m: seq<byte>)
    requires wire != [] && (sa.Some? ==> wire[0] != sa.value.recvHmacZpi && wire[0] != sa.value.recvEncrZpi)
    ensures sa.Some? ==> Ingress(mac, known, sa, wire) == Dropped(Decryption(UnknownZpi))
    ensures sa.None? ==>
              (Ingress(mac, known, sa, wire) == Accepted(m)
               <==> (known ==> wire[0] == ZPI_0) && Readable(wire[0], known, m)
                    && |wire| == |m| + 3 && wire[1..|m| + 1] == m && DecryptedNull(wire).Ok?)
  {
    if sa.None? && |wire| >= 3 {
      assert wire[..|wire| - 2][1..] == wire[1..|wire| - 2];
    }
  }

  /** Between established ends every message but key management arrives as it was sent. */
  lemma EstablishedLink(mac: Mac, a: Sa, b: Sa, nonce: nat, message: seq<byte>)
    requires Mirrored(a, b) && Egress(mac, Some(a), nonce, message).Some?
    ensures var wire := Egress(mac, Some(a), nonce, message).value;
            Ingress(mac, true, Some(b), wire)
            == if message[0] == KEY_MANAGEMENT then Dropped(Decryption(UnknownZpi)) else Accepted(message)
  {
    var wire := Egress(mac, Some(a), nonce, message).value;
    if message[0] == TRANSIT_PACKET {
      var body := [a.sendHmacZpi] + message;
      assert wire[..|wire| - MAC_SIZE] == body && wire[|wire| - MAC_SIZE..] == mac(a.sendKey, body);
      assert body[1..] == message;
    } else if message[0] != KEY_MANAGEMENT {
      var body := [a.sendEncrZpi] + message;
      FullRoundTrip(a.codec, b.codec, nonce, b.padlen, body);
      assert body[1..] == message;
    }
  }

  /** Before that, only key management passes on a known link, and anything on a new one. */
  lemma UnestablishedLink(mac: Mac, known: bool, nonce: nat, message: seq<byte>)
    requires |message| >= 2
    ensures Egress(mac, None, nonce, message).Some?
    ensures Ingress(mac, known, None, Egress(mac, None, nonce, message).value)
         == if known && message[0] != KEY_MANAGEMENT then Dropped(NotUnderZpi0) else Accepted(message)
  {
    var wire := Egress(mac, None, nonce, message).value;
    NullAcceptsExactly(ZPI_0, message, NullTrailer(message));
    assert wire[..|wire| - 2] == [ZPI_0] + message;
    assert ([ZPI_0] + message)[1..] == message;
  }
}

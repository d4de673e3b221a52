/**
From keying to traffic: what two key managers agree on is what the fast path needs
(adapter/ph/src/km_noise.rs, adapter/ph/src/fastpath.rs).
*/
module KeyedLink {
  import opened Bytes
  import opened PacketSecurity
  import opened LinkSecurity
  import Km = KmNoise

  /** The association the fast path works with, as the key manager hands it over. */
  function Installed(sa: Km.Sa, codec: Codec, padlen: nat): Sa {
    Sa(sa.sendZpis.hmac, sa.sendZpis.encr, sa.recvZpis.hmac, sa.recvZpis.encr, sa.sendKey, sa.recvKey, codec, padlen)
  }

  predicate UsableZpis(zpis: Km.ZpiPair) {
    zpis.hmac != zpis.encr && zpis.hmac != ZPI_0 && zpis.encr != ZPI_0
  }

  /** The index its receiver chose for a message: transit is only authenticated, the rest encrypted. */
  function ZpiFor(zpis: Km.ZpiPair, message: seq<byte>): byte
    requires message != []
  {
    if message[0] == TRANSIT_PACKET then zpis.hmac else zpis.encr
  }

  /**
  Whatever resets, messages and ticks brought an initiator and a responder to one shared
  transcript, each opens what the other sends: every message but key management arrives as it was sent.
  */
  lemma HandshakeSecuresLink(
    ic: Km.Config, ifirst: Km.Call, icalls: seq<Km.Call>, icodec: Codec,
    rc: Km.Config, rfirst: Km.Call, rcalls: seq<Km.Call>, rcodec: Codec,
    padlen: nat, mac: Mac, nonce: nat, message: seq<byte>)
    requires ic.initiate && !rc.initiate && Km.LegalCalls(ic, ifirst, icalls) && Km.LegalCalls(rc, rfirst, rcalls)
    requires var i, r := Km.After(ic, ifirst, icalls).machine.state, Km.After(rc, rfirst, rcalls).machine.state;
             i.Transport? && r.Transport? && i.sa.transcript == r.sa.transcript
    requires UsableZpis(ic.recvZpis) && UsableZpis(rc.recvZpis) && icodec.Bounded() && rcodec.Bounded()
    requires icodec.Opens(rcodec, padlen) && rcodec.Opens(icodec, padlen)
    requires |message| >= 2 && message[0] != KEY_MANAGEMENT
    ensures var i := Installed(Km.After(ic, ifirst, icalls).machine.state.sa, icodec, padlen);
            var r := Installed(Km.After(rc, rfirst, rcalls).machine.state.sa, rcodec, padlen);
            var there, back := Egress(mac, Some(i), nonce, message), Egress(mac, Some(r), nonce, message);
            && (there.Some? ==> Ingress(mac, true, Some(r), there.value) == Accepted(message))
            && (back.Some? ==> Ingress(mac, true, Some(i), back.value) == Accepted(message))
            && (message[0] == TRANSIT_PACKET ==> there.Some? && back.Some?)
            && (there.Some? ==> there.value[0] == ZpiFor(rc.recvZpis, message))
            && (back.Some? ==> back.value[0] == ZpiFor(ic.recvZpis, message))
  {
    Km.EndsMirror(ic, ifirst, icalls, rc, rfirst, rcalls);
    var i := Installed(Km.After(ic, ifirst, icalls).machine.state.sa, icodec, padlen);
    var r := Installed(Km.After(rc, rfirst, rcalls).machine.state.sa, rcodec, padlen);
    assert Mirrored(i, r) && Mirrored(r, i);
    if Egress(mac, Some(i), nonce, message).Some? {
      EstablishedLink(mac, i, r, nonce, message);
    }
    if Egress(mac, Some(r), nonce, message).Some? {
      EstablishedLink(mac, r, i, nonce, message);
    }
  }
}

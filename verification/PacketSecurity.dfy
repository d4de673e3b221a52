/**
Per-link packet protection (adapter/ph/src/fastpath.rs): the null cipher with its checksum, the
link MAC, and encryption into the packet's own tailroom.

Keyed hashing and the cipher are parameters: `Mac` for the keyed hash, `Codec` for the codec
trait of adapter/ph/src/km.rs.
*/
module PacketSecurity {
  import opened Bytes
  import opened InternetChecksum
  import opened Packets

  datatype DecryptError = BadStructure | UnknownZpi | DecryptionFailure | MicvFailure | BadChecksum

  datatype Status<+E> = Ok | Err(error: E)

  const ZPI_SIZE: nat := 1

  // ---------------------------------------------------------------- the null cipher

  /** The two checksum bytes, swapped behind an odd number of bytes. */
  function NullTrailer(payload: seq<byte>): (t: seq<byte>)
    ensures |t| == 2
  {
    var csum := Be16(Checksum(payload));
    if |payload| % 2 != 0 then [csum[1], csum[0]] else csum
  }

  method EncryptNull(pkt: Packet)
    requires pkt.Valid() && pkt.len >= ZPI_SIZE && pkt.Tailroom() >= 2
    modifies pkt, pkt.buf
    ensures pkt.Valid() && pkt.offset == old(pkt.offset)
    ensures pkt.Body() == old(pkt.Body()) + NullTrailer(old(pkt.Body())[ZPI_SIZE..])
  {
    var csum := Be16(Checksum(pkt.Body()[ZPI_SIZE..]));
    if (pkt.len - ZPI_SIZE) % 2 != 0 {
      csum := [csum[1], csum[0]];
    }
    pkt.Put(csum);
  }

  function DecryptedNull(body: seq<byte>): Status<DecryptError> {
    if |body| < ZPI_SIZE + 2 then Err(BadStructure)
    else if Checksum(body[ZPI_SIZE..]) != 0 then Err(BadChecksum)
    else Ok
  }

  method DecryptNull(pkt: Packet) returns (r: Status<DecryptError>)
    requires pkt.Valid()
    modifies pkt
    ensures pkt.Valid() && pkt.offset == old(pkt.offset)
    ensures r == DecryptedNull(old(pkt.Body()))
    ensures pkt.Body() == if r.Ok? then old(pkt.Body())[..old(pkt.len) - 2] else old(pkt.Body())
  {
    if pkt.len < ZPI_SIZE + 2 {
      return Err(BadStructure);
    }
    if Checksum(pkt.Body()[ZPI_SIZE..]) != 0 {
      return Err(BadChecksum);
    }
    pkt.ShrinkBy(2);
    return Ok;
  }

  /** The word a two-byte trailer adds to the sum, straddling words behind an odd payload. */
  function TrailerWord(payload: seq<byte>, trailer: seq<byte>): u16
    requires |trailer| == 2
  {
    if |payload| % 2 != 0 then Word([trailer[1], trailer[0]], 0) else Word(trailer, 0)
  }

  lemma TrailerSum(payload: seq<byte>, trailer: seq<byte>)
    requires |trailer| == 2
    ensures WordSum(payload + trailer) == WordSum(payload) + TrailerWord(payload, trailer)
  {
    var w := TrailerWord(payload, trailer);
    if |payload| % 2 == 0 {
      WordSumAppend(payload, trailer);
      assert trailer[2..] == [];
    } else {
      assert trailer == [w % 0x100, w / 0x100];
      WordSumAppendSwapped(payload, w);
    }
  }

  /**
  Which trailers the receiver accepts behind a payload of any length, odd or even: the sender's
  own, and when that is the word 0 also the word 0xffff. So the null cipher is undone exactly,
  and no other trailer passes.
  */
  lemma NullAcceptsExactly(zpi: byte, payload: seq<byte>, trailer: seq<byte>)
    requires |trailer| == 2
    ensures DecryptedNull([zpi] + payload + trailer).Ok?
       <==> trailer == NullTrailer(payload) || (trailer == [0xff, 0xff] && NullTrailer(payload) == [0, 0])
  {
    var body := [zpi] + payload + trailer;
    assert body[1..] == payload + trailer;
    TrailerSum(payload, trailer);
    ZeroChecksum(payload + trailer);
    Completes(WordSum(payload), TrailerWord(payload, trailer));
    var csum := Checksum(payload);
    Be16OfWord(if |payload| % 2 != 0 then [trailer[1], trailer[0]] else trailer, 0);
    WordOfBe16(csum);
  }

  /** What verifies: behind the ZPI byte the words, trailer included, sum up to a multiple of 0xffff. */
  lemma NullAcceptsSums(body: seq<byte>)
    ensures DecryptedNull(body).Ok? <==> |body| >= 3 && WordSum(body[1..]) > 0 && WordSum(body[1..]) % 0xffff == 0
    ensures DecryptedNull(body) == Err(BadStructure) <==> |body| < 3
  {
    if |body| >= 3 {
      ZeroChecksum(body[1..]);
    }
  }

  /** Sender and receiver on one packet: the body comes back, whatever its length. */
  method NullRoundTrip(pkt: Packet)
    requires pkt.Valid() && pkt.len >= ZPI_SIZE && pkt.Tailroom() >= 2
    modifies pkt, pkt.buf
    ensures pkt.Valid() && pkt.Body() == old(pkt.Body())
  {
    ghost var body := pkt.Body();
    EncryptNull(pkt);
    ghost var payload := body[1..];
    assert [body[0]] + payload == body;
    NullAcceptsExactly(body[0], payload, NullTrailer(payload));
    var r := DecryptNull(pkt);
    assert r.Ok?;
  }

  // ---------------------------------------------------------------- the link MAC

  const MAC_SIZE: nat := 8

  type Key = nat

  /** Keyed hash, truncated to the MAC size. */
  type Mac = f: (Key, seq<byte>) -> seq<byte> | forall k, b :: |f(k, b)| == MAC_SIZE
    witness (_, _) => [0, 0, 0, 0, 0, 0, 0, 0]

  method EncryptHmac(mac: Mac, key: Key, pkt: Packet)
    requires pkt.Valid() && pkt.Tailroom() >= MAC_SIZE
    modifies pkt, pkt.buf
    ensures pkt.Valid() && pkt.offset == old(pkt.offset)
    ensures pkt.Body() == old(pkt.Body()) + mac(key, old(pkt.Body()))
  {
    pkt.Put(mac(key, pkt.Body()));
  }

  function DecryptedHmac(mac: Mac, key: Key, body: seq<byte>): Status<DecryptError> {
    if |body| < MAC_SIZE then Err(BadStructure)
    else if mac(key, body[..|body| - MAC_SIZE]) != body[|body| - MAC_SIZE..] then Err(MicvFailure)
    else Ok
  }

  /** Exactly the packets that end in the MAC of what precedes it are let through. */
  lemma HmacAcceptsExactly(mac: Mac, key: Key, body: seq<byte>)
    ensures DecryptedHmac(mac, key, body).Ok? <==> exists p :: body == p + mac(key, p)
    ensures DecryptedHmac(mac, key, body) == Err(BadStructure) <==> |body| < MAC_SIZE
  {
    if DecryptedHmac(mac, key, body).Ok? {
      var p := body[..|body| - MAC_SIZE];
      assert body == p + mac(key, p);
    }
    forall p | body == p + mac(key, p)
      ensures DecryptedHmac(mac, key, body).Ok?
    {
      assert body[..|body| - MAC_SIZE] == p && body[|body| - MAC_SIZE..] == mac(key, p);
    }
  }

  method DecryptHmac(mac: Mac, key: Key, pkt: Packet) returns (r: Status<DecryptError>)
    requires pkt.Valid()
    modifies pkt
    ensures pkt.Valid() && pkt.offset == old(pkt.offset)
    ensures r == DecryptedHmac(mac, key, old(pkt.Body()))
    ensures pkt.Body() == if r == Err(BadStructure) then old(pkt.Body()) else old(pkt.Body())[..old(pkt.len) - MAC_SIZE]
  {
    if pkt.len < MAC_SIZE {
      return Err(BadStructure);
    }
    var linkMac := pkt.Body()[pkt.len - MAC_SIZE..];
    pkt.ShrinkBy(MAC_SIZE);
    if mac(key, pkt.Body()) != linkMac {
      return Err(MicvFailure);
    }
    return Ok;
  }

  // ---------------------------------------------------------------- encryption in place

  datatype EncryptionError = ParseError | MessageTooLarge | CodecError

  datatype Sealed = Sealed(bytes: seq<byte>) | Refused

  /**
  A codec: what it makes of a payload, given its nonce counter, and of a ciphertext. It writes
  its output to the front of the buffer it is given and refuses one that is too small.
  */
  datatype Codec = Codec(
    maxOverhead: nat,
    encrypt: (nat, seq<byte>) -> Sealed,
    decrypt: seq<byte> -> Sealed)
  {
    /** A ciphertext exceeds its payload by at most `maxOverhead`, and decryption never expands. */
    ghost predicate Bounded() {
      && (forall n, p :: encrypt(n, p).Sealed? ==> |encrypt(n, p).bytes| <= |p| + maxOverhead)
      && (forall c :: decrypt(c).Sealed? ==> |decrypt(c).bytes| <= |c|)
    }

    /** This end reads back what the other one sealed, and every ciphertext has `padlen` bytes at least. */
    ghost predicate Opens(peer: Codec, padlen: nat) {
      forall n, p :: peer.encrypt(n, p).Sealed? ==>
        padlen <= |peer.encrypt(n, p).bytes| && decrypt(peer.encrypt(n, p).bytes) == Sealed(p)
    }
  }

  const PACKET_BUFFER_SIZE: nat := 4096 * 3

  /** A codec call: the output goes to the front of `message[from..]`; the rest of it may be scribbled on. */
  method WriteSealed(sealed: Sealed, message: array<byte>, from: nat) returns (len: Option<nat>)
    requires from <= message.Length
    modifies message
    ensures len == (if sealed.Sealed? && |sealed.bytes| <= message.Length - from then Some(|sealed.bytes|) else None)
    ensures len.Some? ==> message[from..from + len.value] == sealed.bytes
    ensures forall i :: 0 <= i < from ==> message[i] == old(message[i])
  {
    if sealed.Refused? || |sealed.bytes| > message.Length - from {
      return None;
    }
    forall k | from <= k < from + |sealed.bytes| {
      message[k] := sealed.bytes[k - from];
    }
    return Some(|sealed.bytes|);
  }

  /** The fast path of both directions: output to the tailroom, header moved in front of it. */
  method TransformInPlace(sealed: Sealed, pkt: Packet) returns (done: bool)
    requires pkt.Valid() && pkt.len >= ZPI_SIZE
    requires sealed.Sealed? ==> |sealed.bytes| <= pkt.Tailroom()
    modifies pkt, pkt.buf
    ensures pkt.Valid() && done == sealed.Sealed?
    ensures pkt.Body() == if done then [old(pkt.Body())[0]] + sealed.bytes else old(pkt.Body())
    ensures done ==> pkt.offset == old(pkt.offset + pkt.len) - ZPI_SIZE
  {
    var len := WriteSealed(sealed, pkt.buf, pkt.offset + pkt.len);
    if len.None? {
      return false;
    }
    pkt.AdoptTailroomWithHeader(ZPI_SIZE, len.value);
    return true;
  }

  /** How the fallback ends: `Overrun` is the panic of copying back more than the packet's buffer takes. */
  datatype ScratchResult = Done | TooLarge | Overrun

  /** The fallback of both directions: output to a scratch buffer, copied back over the body. */
  method TransformViaScratch(sealed: Sealed, pkt: Packet) returns (r: ScratchResult)
    requires pkt.Valid() && pkt.len >= ZPI_SIZE
    modifies pkt, pkt.buf
    ensures pkt.Valid() && pkt.offset == old(pkt.offset)
    ensures r == TooLarge <==> sealed.Refused? || |sealed.bytes| > PACKET_BUFFER_SIZE
    ensures r == Overrun <==>
              && sealed.Sealed? && |sealed.bytes| <= PACKET_BUFFER_SIZE
              && old(pkt.len) - ZPI_SIZE + old(pkt.Tailroom()) < |sealed.bytes|
    ensures r == Done ==> pkt.Body() == [old(pkt.Body())[0]] + sealed.bytes
    ensures r == TooLarge ==> pkt.Body() == old(pkt.Body())
  {
    var scratch := new byte[PACKET_BUFFER_SIZE];
    var len := WriteSealed(sealed, scratch, 0);
    if len.None? {
      return TooLarge;
    }
    pkt.ShrinkBy(pkt.len - ZPI_SIZE);
    if len.value > pkt.Tailroom() {
      return Overrun;
    }
    pkt.Put(scratch[..len.value]);
    return Done;
  }

  /** What full encryption makes of a body, on either path. */
  function Encrypted(codec: Codec, nonce: nat, body: seq<byte>): (r: Sealed)
    requires |body| >= ZPI_SIZE
  {
    var sealed := codec.encrypt(nonce, body[ZPI_SIZE..]);
    if sealed.Sealed? then Sealed([body[0]] + sealed.bytes) else Refused
  }

  /** Does a packet of this length go through its own tailroom? */
  predicate InPlace(len: nat, overhead: nat, tailroom: nat) {
    tailroom + ZPI_SIZE >= len + overhead
  }

  /** Does the output find room on the path taken? The scratch buffer is the only one that may be too small. */
  predicate Written(out: Sealed, inPlace: bool) {
    out.Sealed? && (inPlace || |out.bytes| <= ZPI_SIZE + PACKET_BUFFER_SIZE)
  }

  /** Copying the ciphertext back from the scratch buffer overruns the packet's own. */
  predicate Overruns(codec: Codec, nonce: nat, body: seq<byte>, tailroom: nat)
    requires |body| >= ZPI_SIZE
  {
    var e := Encrypted(codec, nonce, body);
    !InPlace(|body|, codec.maxOverhead, tailroom) && Written(e, false) && |e.bytes| > |body| + tailroom
  }

  /** The outcome of encryption, with the panic of an overrun. */
  datatype Attempt = Succeeded | Failed(error: EncryptionError) | Panicked

  /** Apart from an overrun, the outcome depends on the path only when the scratch buffer is too small. */
  method EncryptFull(codec: Codec, nonce: nat, pkt: Packet) returns (r: Attempt)
    requires pkt.Valid() && codec.Bounded()
    modifies pkt, pkt.buf
    ensures pkt.Valid()
    ensures old(pkt.len) == 0 ==> r == Failed(ParseError) && pkt.Body() == []
    ensures old(pkt.len) > 0 ==>
              var e := Encrypted(codec, nonce, old(pkt.Body()));
              && (r.Panicked? <==> Overruns(codec, nonce, old(pkt.Body()), old(pkt.Tailroom())))
              && (r.Failed? <==> !Written(e, old(InPlace(pkt.len, codec.maxOverhead, pkt.Tailroom()))))
              && (r.Succeeded? ==> pkt.Body() == e.bytes)
              && (e.Sealed? && old(pkt.Tailroom() >= pkt.len - 1 + codec.maxOverhead) ==> r.Succeeded?)
    ensures r.Failed? ==> pkt.Body() == old(pkt.Body())
  {
    if pkt.len < ZPI_SIZE {
      return Failed(ParseError);
    }
    var encrLen := pkt.len - ZPI_SIZE;
    var sealed := codec.encrypt(nonce, pkt.Body()[ZPI_SIZE..]);
    if pkt.Tailroom() >= encrLen + codec.maxOverhead {
      var done := TransformInPlace(sealed, pkt);
      return if done then Succeeded else Failed(CodecError);
    }
    var result := TransformViaScratch(sealed, pkt);
    match result {
      case Done => return Succeeded;
      case TooLarge => return Failed(CodecError);
      case Overrun => return Panicked;
    }
  }

  /** What a caller can see to beforehand: tailroom for the codec's overhead rules an overrun out. */
  lemma OverheadFits(codec: Codec, nonce: nat, body: seq<byte>, tailroom: nat)
    requires codec.Bounded() && |body| >= ZPI_SIZE && codec.maxOverhead <= tailroom
    ensures !Overruns(codec, nonce, body, tailroom)
  {
  }

  /** For a codec that always adds its full overhead, as Noise does, that is exactly what is needed. */
  lemma OverrunsExactly(codec: Codec, nonce: nat, body: seq<byte>, tailroom: nat)
    requires |body| >= ZPI_SIZE
    requires var p := body[ZPI_SIZE..];
             codec.encrypt(nonce, p).Sealed? && |codec.encrypt(nonce, p).bytes| == |p| + codec.maxOverhead
    ensures Overruns(codec, nonce, body, tailroom)
       <==> tailroom < codec.maxOverhead && |body| - ZPI_SIZE + codec.maxOverhead <= PACKET_BUFFER_SIZE
  {
  }

  /** A codec that puts 24 bytes in front of the payload, as many as Noise adds. */
  function Prefixing(): Codec {
    Codec(24, (_, p) => Sealed(Zeros(24) + p), c => if |c| >= 24 then Sealed(c[24..]) else Refused)
  }

  /** The overrun happens: 60 bytes with 10 of tailroom. */
  lemma ShortTailroomPanics(body: seq<byte>)
    requires |body| == 60
    ensures Prefixing().Bounded() && Prefixing().Opens(Prefixing(), 24) && Overruns(Prefixing(), 0, body, 10)
  {
    forall p: seq<byte>
      ensures (Zeros(24) + p)[24..] == p
    {
    }
    OverrunsExactly(Prefixing(), 0, body, 10);
  }

  function Decrypted(codec: Codec, padlen: nat, body: seq<byte>): (r: Sealed)
    requires |body| >= ZPI_SIZE
  {
    var plain := codec.decrypt(body[ZPI_SIZE..]);
    if |body| - ZPI_SIZE >= padlen && plain.Sealed? then Sealed([body[0]] + plain.bytes) else Refused
  }

  method DecryptFull(codec: Codec, padlen: nat, pkt: Packet) returns (r: Status<DecryptError>)
    requires pkt.Valid() && codec.Bounded()
    modifies pkt, pkt.buf
    ensures pkt.Valid()
    ensures r == Err(BadStructure) <==> old(pkt.len) < ZPI_SIZE + padlen
    ensures old(pkt.len) > 0 ==>
              var d := Decrypted(codec, padlen, old(pkt.Body()));
              && (r.Ok? <==> Written(d, old(InPlace(pkt.len, 0, pkt.Tailroom()))))
              && (r.Ok? ==> pkt.Body() == d.bytes)
              && (d.Sealed? && old(pkt.Tailroom() >= pkt.len - 1) ==> r.Ok?)
    ensures !r.Ok? ==> pkt.Body() == old(pkt.Body())
  {
    if pkt.len < ZPI_SIZE {
      return Err(BadStructure);
    }
    var encrLen := pkt.len - ZPI_SIZE;
    if encrLen < padlen {
      return Err(BadStructure);
    }
    var plain := codec.decrypt(pkt.Body()[ZPI_SIZE..]);
    if pkt.Tailroom() >= encrLen {
      var done := TransformInPlace(plain, pkt);
      return if done then Ok else Err(DecryptionFailure);
    }
    var result := TransformViaScratch(plain, pkt);
    assert result != Overrun;  // decryption never expands
    return if result == Done then Ok else Err(DecryptionFailure);
  }

  /** Decryption undoes encryption, ZPI byte included, for every body and pair of codecs. */
  lemma FullRoundTrip(tx: Codec, rx: Codec, nonce: nat, padlen: nat, body: seq<byte>)
    requires rx.Opens(tx, padlen) && |body| >= ZPI_SIZE
    requires Encrypted(tx, nonce, body).Sealed?
    ensures Decrypted(rx, padlen, Encrypted(tx, nonce, body).bytes) == Sealed(body)
  {
    var c := tx.encrypt(nonce, body[1..]).bytes;
    assert ([body[0]] + c)[1..] == c;
    assert rx.decrypt(c) == Sealed(body[1..]);
    assert body == [body[0]] + body[1..];
  }

  /** Encrypted in one packet and decrypted in another, each on whichever path its tailroom allows. */
  method FullRoundTripAcross(tx: Codec, rx: Codec, nonce: nat, padlen: nat, sender: Packet, receiver: Packet)
    returns (delivered: bool)
    requires sender.Valid() && receiver.Valid() && tx.Bounded() && rx.Bounded() && rx.Opens(tx, padlen)
    requires sender != receiver && sender.buf != receiver.buf
    requires sender.len >= ZPI_SIZE && receiver.len == 0
    modifies sender, sender.buf, receiver, receiver.buf
    ensures delivered ==> receiver.Valid() && receiver.Body() == old(sender.Body())
    ensures delivered <==>
              var e := Encrypted(tx, nonce, old(sender.Body()));
              && Written(e, old(InPlace(sender.len, tx.maxOverhead, sender.Tailroom())))
              && !Overruns(tx, nonce, old(sender.Body()), old(sender.Tailroom()))
              && |e.bytes| <= old(receiver.Tailroom())
              && Written(Sealed(old(sender.Body())), InPlace(|e.bytes|, 0, old(receiver.Tailroom()) - |e.bytes|))
  {
    ghost var body := sender.Body();
    var r := EncryptFull(tx, nonce, sender);
    if !r.Succeeded? || sender.len > receiver.Tailroom() {
      return false;
    }
    receiver.Put(sender.Body());
    assert receiver.Body() == Encrypted(tx, nonce, body).bytes;
    FullRoundTrip(tx, rx, nonce, padlen, body);
    var d := DecryptFull(rx, padlen, receiver);
    return d.Ok?;
  }
}

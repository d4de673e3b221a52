/**
The Noise key manager (adapter/ph/src/km_noise.rs, adapter/ph/src/km_cert_exchange.rs).

The Noise library is an ideal session of the XX pattern (section 7.5 of the Noise Protocol
Framework, revision 34): three messages, initiator first; a message is bound to every message
before it, and reading one that is bound to another transcript fails. Random keys, clock readings
and failures of the library's builder and writer are inputs.
*/
module KmNoise {
  import opened Bytes
  import Runs

  type Key = nat

  datatype ZpiPair = ZpiPair(encr: byte, hmac: byte)

  /** A certificate payload: absent, undecodable, or a certificate for a key, signed by an authority. */
  datatype CertBlob = NoCert | BadCert | Cert(key: Key, signer: nat)

  datatype PeerCert = Verified(cert: CertBlob) | Unverified(cert: CertBlob)

  datatype Payload = NoKeyMsg | KeyMsg(zpis: ZpiPair, hmacKey: Key, cert: CertBlob)

  /** A handshake message, bound to the messages before it. */
  datatype Msg = Msg(prior: seq<Msg>, staticKey: Key, payload: Payload)

  // ---------------------------------------------------------------- the ideal session

  datatype Handshake = Handshake(initiator: bool, staticKey: Key, transcript: seq<Msg>) {

    predicate MyTurn() {
      |transcript| < 3 && (initiator <==> |transcript| % 2 == 0)
    }

    predicate Finished() {
      |transcript| == 3
    }

    function Next(payload: Payload): Msg {
      Msg(transcript, staticKey, payload)
    }

    function With(m: Msg): Handshake {
      this.(transcript := transcript + [m])
    }

    predicate Reads(m: Msg) {
      |transcript| < 3 && !MyTurn() && m.prior == transcript
    }
  }

  /** The transcript's messages are bound to each other. */
  ghost predicate Chained(t: seq<Msg>) {
    forall i :: 0 <= i < |t| ==> t[i].prior == t[..i]
  }

  // ---------------------------------------------------------------- the machine as a value

  datatype Sa = Sa(
    sendZpis: ZpiPair, recvZpis: ZpiPair, sendKey: Key, recvKey: Key, transcript: seq<Msg>, peerCert: Option<PeerCert>)

  datatype State = Configuring | Transport(sa: Sa) | Error

  datatype KmError = MachineError | HandshakeError | CertExchangeError | InvalidState

  datatype Reply = Reply(msg: Option<Msg>) | Failed(error: KmError) | Panicked

  datatype KmId = Noise | Null | OtherKm

  const HANDSHAKE_TIMEOUT: nat := 15_000

  datatype Config = Config(
    initiate: bool, verifyCert: bool, staticKey: Key, recvZpis: ZpiPair, localCert: CertBlob, authority: Option<nat>)

  predicate CarriesKeyMsg(msgNr: nat) {
    msgNr == 1 || msgNr == 2
  }

  /** Certificate exchange: `None` is an error, `Some(None)` a peer without certificate. */
  function ProcessCert(cfg: Config, blob: CertBlob, peerKey: Key): Option<Option<PeerCert>> {
    match blob
    case NoCert => Some(None)
    case BadCert => None
    case Cert(key, signer) =>
      if key != peerKey then None
      else if cfg.authority == Some(signer) then Some(Some(Verified(blob)))
      else Some(Some(Unverified(blob)))
  }

  datatype Machine = Machine(
    state: State, msgNr: nat, hs: Option<Handshake>, hsSentT: Option<nat>,
    recvKey: Key, sendKey: Option<Key>, sendZpis: Option<ZpiPair>, peerCert: Option<PeerCert>)

  function OwnPayload(cfg: Config, m: Machine): Payload {
    if CarriesKeyMsg(m.msgNr) then KeyMsg(cfg.recvZpis, m.recvKey, cfg.localCert) else NoKeyMsg
  }

  function Reset(cfg: Config, m0: Machine, key: Key, builds: bool, writes: bool, now: nat): (Machine, Reply) {
    var m := m0.(state := Configuring, msgNr := 0, recvKey := key, sendKey := None);
    if !builds then (m.(state := Error), Failed(MachineError)) else
    var hs := Handshake(cfg.initiate, cfg.staticKey, []);
    if !cfg.initiate then (m.(hs := Some(hs), hsSentT := None), Reply(None))
    else if !writes then (m.(state := Error), Failed(HandshakeError))
    else
      var msg := hs.Next(OwnPayload(cfg, m));
      (m.(hs := Some(hs.With(msg)), hsSentT := Some(now), msgNr := 1), Reply(Some(msg)))
  }

  function Handle(cfg: Config, m0: Machine, msg: Option<Msg>, km: KmId, writes: bool, now: nat): (Machine, Reply) {
    if m0.state != Configuring then (m0, Failed(InvalidState))
    else if m0.hs.None? then (m0, Panicked)
    else
      var m := m0.(hsSentT := None);
      var hs := m.hs.value;
      if msg.None? || !hs.Reads(msg.value) then (m.(state := Error), Failed(HandshakeError)) else
      var hs := hs.With(msg.value);
      var m := m.(hs := Some(hs), msgNr := m.msgNr + 1);
      if !CarriesKeyMsg(m0.msgNr) then Answer(cfg, m, hs, km, writes, now)
      else
        match msg.value.payload
        case NoKeyMsg => (m.(state := Error), Failed(HandshakeError))
        case KeyMsg(zpis, key, blob) =>
          var m := m.(sendZpis := Some(zpis), sendKey := Some(key));
          var cert := ProcessCert(cfg, blob, msg.value.staticKey);
          if cert.None? then (m.(state := Error), Failed(HandshakeError)) else
          var m := m.(peerCert := cert.value);
          if cfg.verifyCert && cfg.authority.Some? && !(m.peerCert.Some? && m.peerCert.value.Verified?) then
            (m.(state := Error), Failed(CertExchangeError))
          else
            Answer(cfg, m, hs, km, writes, now)
  }

  /** The second half of `handle_message`: write the next message, and finish if that was the last. */
  function Answer(cfg: Config, m0: Machine, hs0: Handshake, km: KmId, writes: bool, now: nat): (Machine, Reply) {
    if hs0.Finished() then Finish(cfg, m0, hs0, None, km)
    else if !writes || !hs0.MyTurn() then (m0.(state := Error), Failed(HandshakeError))
    else
      var msg := hs0.Next(OwnPayload(cfg, m0));
      var hs := hs0.With(msg);
      var m := m0.(hs := Some(hs), msgNr := m0.msgNr + 1, hsSentT := Some(now));
      if hs.Finished() then Finish(cfg, m, hs, Some(msg), km) else (m, Reply(Some(msg)))
  }

  function Finish(cfg: Config, m0: Machine, hs: Handshake, msg: Option<Msg>, km: KmId): (Machine, Reply) {
    var m := m0.(hs := None);
    if m.sendZpis.None? || m.sendKey.None? then (m.(state := Error), Failed(HandshakeError))
    else if km == OtherKm then (m, Failed(HandshakeError))
    else
      var sa := Sa(m.sendZpis.value, cfg.recvZpis, m.sendKey.value, m.recvKey, hs.transcript, m.peerCert);
      (m.(state := Transport(sa)), Reply(msg))
  }

  function Tick(m: Machine, now: nat): (Machine, Reply) {
    if m.state == Configuring && m.hs.Some? && m.hsSentT.Some? && now > m.hsSentT.value + HANDSHAKE_TIMEOUT then
      (m.(state := Error, hs := None, hsSentT := None), Failed(HandshakeError))
    else
      (m, Reply(None))
  }

  // ---------------------------------------------------------------- the machine as an object

  class NoiseMachine {
    const cfg: Config
    var state: State
    var msgNr: nat
    var hs: Option<Handshake>
    var hsSentT: Option<nat>
    var recvKey: Key
    var sendKey: Option<Key>
    var sendZpis: Option<ZpiPair>
    var peerCert: Option<PeerCert>

    constructor (cfg: Config)
      ensures this.cfg == cfg && Value() == New()
    {
      this.cfg := cfg;
      state, msgNr, hs, hsSentT, recvKey, sendKey, sendZpis, peerCert :=
        Configuring, 0, None, None, 0, None, None, None;
    }

    function Value(): Machine
      reads this
    {
      Machine(state, msgNr, hs, hsSentT, recvKey, sendKey, sendZpis, peerCert)
    }

    method CreateHsMessage(session: Handshake, writes: bool) returns (next: Handshake, msg: Option<Msg>)
      modifies this
      ensures msg == if writes && session.MyTurn() then Some(session.Next(OwnPayload(cfg, old(Value())))) else None
      ensures next == if msg.Some? then session.With(msg.value) else session
      ensures Value() == old(Value()).(msgNr := old(msgNr) + if msg.Some? then 1 else 0)
    {
      if !writes || !session.MyTurn() {
        return session, None;
      }
      var m := session.Next(OwnPayload(cfg, Value()));
      msgNr := msgNr + 1;
      return session.With(m), Some(m);
    }

    method ResetSession(key: Key, builds: bool, writes: bool, now: nat) returns (r: Reply)
      modifies this
      ensures (Value(), r) == old(Reset(cfg, Value(), key, builds, writes, now))
    {
      state, msgNr, recvKey, sendKey := Configuring, 0, key, None;
      if !builds {
        state := Error;
        return Failed(MachineError);
      }
      var session := Handshake(cfg.initiate, cfg.staticKey, []);
      if cfg.initiate {
        var next, msg := CreateHsMessage(session, writes);
        if msg.None? {
          state := Error;
          return Failed(HandshakeError);
        }
        hs, hsSentT := Some(next), Some(now);
        return Reply(msg);
      }
      hs, hsSentT := Some(session), None;
      return Reply(None);
    }

    /** Take the key message out of a payload; the certificate check comes last. */
    method ParseKmPayload(payload: Payload, peerKey: Key) returns (ok: bool)
      modifies this
      ensures payload.NoKeyMsg? ==> !ok && Value() == old(Value())
      ensures payload.KeyMsg? ==>
                var cert := ProcessCert(cfg, payload.cert, peerKey);
                var m := old(Value()).(sendZpis := Some(payload.zpis), sendKey := Some(payload.hmacKey));
                ok == cert.Some? && Value() == if ok then m.(peerCert := cert.value) else m
    {
      if payload.NoKeyMsg? {
        return false;
      }
      sendZpis, sendKey := Some(payload.zpis), Some(payload.hmacKey);
      var cert := ProcessCert(cfg, payload.cert, peerKey);
      if cert.None? {
        return false;
      }
      peerCert := cert.value;
      return true;
    }

    method HandleMessage(msg: Option<Msg>, km: KmId, writes: bool, now: nat) returns (r: Reply)
      modifies this
      ensures (Value(), r) == old(Handle(cfg, Value(), msg, km, writes, now))
    {
      if state != Configuring {
        return Failed(InvalidState);
      }
      if hs.None? {
        return Panicked;
      }
      hsSentT := None;
      var session := hs.value;
      if msg.None? || !session.Reads(msg.value) {
        state := Error;
        return Failed(HandshakeError);
      }
      session := session.With(msg.value);
      hs := Some(session);
      var nr := msgNr;
      msgNr := msgNr + 1;
      if CarriesKeyMsg(nr) {
        var ok := ParseKmPayload(msg.value.payload, msg.value.staticKey);
        if !ok {
          state := Error;
          return Failed(HandshakeError);
        }
        if cfg.verifyCert && cfg.authority.Some? && !(peerCert.Some? && peerCert.value.Verified?) {
          state := Error;
          return Failed(CertExchangeError);
        }
      }
      r := AnswerAndFinish(session, km, writes, now);
    }

    method AnswerAndFinish(session0: Handshake, km: KmId, writes: bool, now: nat) returns (r: Reply)
      modifies this
      ensures (Value(), r) == old(Answer(cfg, Value(), session0, km, writes, now))
    {
      var session, reply := session0, None;
      if !session.Finished() {
        session, reply := CreateHsMessage(session, writes);
        if reply.None? {
          state := Error;
          return Failed(HandshakeError);
        }
        hsSentT := Some(now);
      }
      if !session.Finished() {
        hs := Some(session);
        return Reply(reply);
      }
      hs := None;
      if sendZpis.None? || sendKey.None? {
        state := Error;
        return Failed(HandshakeError);
      }
      if km == OtherKm {
        return Failed(HandshakeError);
      }
      state := Transport(Sa(sendZpis.value, cfg.recvZpis, sendKey.value, recvKey, session.transcript, peerCert));
      return Reply(reply);
    }

    method TickClock(now: nat) returns (r: Reply)
      modifies this
      ensures (Value(), r) == old(Tick(Value(), now))
    {
      if state == Configuring && hs.Some? && hsSentT.Some? && now > hsSentT.value + HANDSHAKE_TIMEOUT {
        hs, hsSentT, state := None, None, Error;
        return Failed(HandshakeError);
      }
      return Reply(None);
    }
  }

  // ---------------------------------------------------------------- what every run keeps

  function New(): Machine {
    Machine(Configuring, 0, None, None, 0, None, None, None)
  }

  /** While configuring, a session of this attempt is held, at the point the message counter says. */
  ghost predicate SessionHeld(cfg: Config, m: Machine) {
    && m.hs.Some?
    && var hs := m.hs.value;
      && hs.initiator == cfg.initiate && hs.staticKey == cfg.staticKey
      && m.msgNr == |hs.transcript| && Chained(hs.transcript)
      && (if cfg.initiate then |hs.transcript| == 1 else |hs.transcript| in {0, 2})
      && (|hs.transcript| == 2 ==>
            && hs.transcript[1].payload == KeyMsg(cfg.recvZpis, m.recvKey, cfg.localCert)
            && hs.transcript[1].staticKey == cfg.staticKey)
  }

  /**
  An established association comes from one attempt: what it sends under is what the peer's
  message in that attempt's transcript asked for, what it receives under is what our own message
  told the peer, and the certificate is the one in the peer's message.
  */
  ghost predicate FromTranscript(cfg: Config, sa: Sa) {
    && |sa.transcript| == 3 && Chained(sa.transcript)
    && var own := sa.transcript[if cfg.initiate then 2 else 1];
       var peer := sa.transcript[if cfg.initiate then 1 else 2];
      && own.payload == KeyMsg(sa.recvZpis, sa.recvKey, cfg.localCert) && sa.recvZpis == cfg.recvZpis
      && own.staticKey == cfg.staticKey
      && peer.payload.KeyMsg? && peer.payload.zpis == sa.sendZpis && peer.payload.hmacKey == sa.sendKey
      && ProcessCert(cfg, peer.payload.cert, peer.staticKey) == Some(sa.peerCert)
  }

  /** Told to verify, with an authority to verify against: the peer's certificate is signed by it. */
  ghost predicate VerifiedIfRequired(cfg: Config, sa: Sa) {
    cfg.verifyCert && cfg.authority.Some? ==>
      && |sa.transcript| == 3
      && sa.peerCert.Some? && sa.peerCert.value.Verified? && sa.peerCert.value.cert.Cert?
      && cfg.authority == Some(sa.peerCert.value.cert.signer)
      && sa.peerCert.value.cert.key == sa.transcript[if cfg.initiate then 1 else 2].staticKey
  }

  ghost predicate Inv(cfg: Config, m: Machine) {
    && (m.state.Configuring? ==> SessionHeld(cfg, m))
    && (m.state.Transport? ==> FromTranscript(cfg, m.state.sa) && VerifiedIfRequired(cfg, m.state.sa))
  }

  lemma ResetEstablishes(cfg: Config, m: Machine, key: Key, builds: bool, writes: bool, now: nat)
    ensures Inv(cfg, Reset(cfg, m, key, builds, writes, now).0)
    ensures Reset(cfg, m, key, builds, writes, now).1 != Panicked
  {
  }

  lemma ChainedWith(t: seq<Msg>, m: Msg)
    requires Chained(t) && m.prior == t
    ensures Chained(t + [m])
  {
    var u := t + [m];
    forall i | 0 <= i < |u|
      ensures u[i].prior == u[..i]
    {
      assert u[..i] == t[..i];
    }
  }

  /** The state of a machine after it took `msg` into its transcript, before it answers. */
  ghost predicate Taken(cfg: Config, m: Machine, hs: Handshake) {
    && m.hs == Some(hs) && m.state == Configuring && hs.initiator == cfg.initiate && hs.staticKey == cfg.staticKey
    && m.msgNr == |hs.transcript| && Chained(hs.transcript)
    && (if cfg.initiate then |hs.transcript| == 2 else |hs.transcript| in {1, 3})
    && (|hs.transcript| == 3 ==>
          && hs.transcript[1].payload == KeyMsg(cfg.recvZpis, m.recvKey, cfg.localCert)
          && hs.transcript[1].staticKey == cfg.staticKey)
    && (|hs.transcript| >= 2 ==>
          var peer := hs.transcript[if cfg.initiate then 1 else 2];
          && m.sendZpis.Some? && m.sendKey.Some? && peer.payload.KeyMsg?
          && peer.payload == KeyMsg(m.sendZpis.value, m.sendKey.value, peer.payload.cert)
          && ProcessCert(cfg, peer.payload.cert, peer.staticKey) == Some(m.peerCert)
          && (cfg.verifyCert && cfg.authority.Some? ==> m.peerCert.Some? && m.peerCert.value.Verified?))
  }

  lemma AnswerKeeps(cfg: Config, m: Machine, hs: Handshake, km: KmId, writes: bool, now: nat)
    requires Taken(cfg, m, hs) && km != OtherKm
    ensures Inv(cfg, Answer(cfg, m, hs, km, writes, now).0)
    ensures Answer(cfg, m, hs, km, writes, now).1 != Panicked
  {
    var msg := hs.Next(OwnPayload(cfg, m));
    ChainedWith(hs.transcript, msg);
  }

  lemma HandleKeeps(cfg: Config, m: Machine, msg: Option<Msg>, km: KmId, writes: bool, now: nat)
    requires Inv(cfg, m) && km != OtherKm
    ensures Inv(cfg, Handle(cfg, m, msg, km, writes, now).0)
    ensures Handle(cfg, m, msg, km, writes, now).1 != Panicked
  {
    if m.state.Configuring? && msg.Some? && m.hs.value.Reads(msg.value) {
      var hs := m.hs.value.With(msg.value);
      ChainedWith(m.hs.value.transcript, msg.value);
      var m1 := m.(hsSentT := None, hs := Some(hs), msgNr := m.msgNr + 1);
      if !CarriesKeyMsg(m.msgNr) {
        AnswerKeeps(cfg, m1, hs, km, writes, now);
      } else if msg.value.payload.KeyMsg? {
        var KeyMsg(zpis, key, blob) := msg.value.payload;
        var cert := ProcessCert(cfg, blob, msg.value.staticKey);
        if cert.Some? {
          var m2 := m1.(sendZpis := Some(zpis), sendKey := Some(key), peerCert := cert.value);
          if !(cfg.verifyCert && cfg.authority.Some?) || (cert.value.Some? && cert.value.value.Verified?) {
            AnswerKeeps(cfg, m2, hs, km, writes, now);
          }
        }
      }
    }
  }

  datatype Call =
    | DoReset(key: Key, builds: bool, writes: bool, now: nat)
    | DoMessage(msg: Option<Msg>, km: KmId, writes: bool, now: nat)
    | DoTick(now: nat)

  /** A configured machine, and whether its session assertion has fired. */
  datatype World = World(cfg: Config, machine: Machine, panicked: bool)

  function Respond(w: World, call: Call): (Machine, Reply) {
    match call
    case DoReset(key, builds, writes, now) => Reset(w.cfg, w.machine, key, builds, writes, now)
    case DoMessage(msg, km, writes, now) => Handle(w.cfg, w.machine, msg, km, writes, now)
    case DoTick(now) => Tick(w.machine, now)
  }

  function Next(w: World, call: Call): World {
    var (m, reply) := Respond(w, call);
    World(w.cfg, m, w.panicked || reply.Panicked?)
  }

  predicate KnownKm(w: World, call: Call) {
    call.DoMessage? ==> call.km != OtherKm
  }

  ghost predicate Sound(w: World) {
    Inv(w.cfg, w.machine) && !w.panicked
  }

  lemma NextKeepsSound(w: World, call: Call)
    requires Sound(w) && KnownKm(w, call)
    ensures Sound(Next(w, call)) && Next(w, call).cfg == w.cfg
  {
    match call
    case DoReset(key, builds, writes, now) => ResetEstablishes(w.cfg, w.machine, key, builds, writes, now);
    case DoMessage(msg, km, writes, now) => HandleKeeps(w.cfg, w.machine, msg, km, writes, now);
    case DoTick(now) =>
  }

  /** A machine after its first reset and then any calls. */
  function After(cfg: Config, first: Call, calls: seq<Call>): World {
    Runs.Run(Next, Next(World(cfg, New(), false), first), calls)
  }

  predicate LegalCalls(cfg: Config, first: Call, calls: seq<Call>) {
    first.DoReset? && Runs.Legal(KnownKm, Next, Next(World(cfg, New(), false), first), calls)
  }

  /**
  Every run that starts with a reset: the session assertion never fires, and an association is
  only ever established out of one attempt's transcript, with a verified certificate if required.
  */
  lemma EveryRun(cfg: Config, first: Call, calls: seq<Call>)
    requires LegalCalls(cfg, first, calls)
    ensures Sound(After(cfg, first, calls)) && After(cfg, first, calls).cfg == cfg
  {
    var DoReset(key, builds, writes, now) := first;
    ResetEstablishes(cfg, New(), key, builds, writes, now);
    var kept := w => Sound(w) && w.cfg == cfg;
    forall w, call | kept(w) && KnownKm(w, call)
      ensures kept(Next(w, call))
    {
      NextKeepsSound(w, call);
    }
    Runs.Invariant(KnownKm, Next, kept, Next(World(cfg, New(), false), first), calls);
  }

  /**
  Whatever runs two machines went through, when both are established on one transcript their
  associations mirror each other, and each holds the other's certificate, judged by the other's key.
  */
  lemma EndsMirror(ic: Config, ifirst: Call, icalls: seq<Call>, rc: Config, rfirst: Call, rcalls: seq<Call>)
    requires ic.initiate && !rc.initiate && LegalCalls(ic, ifirst, icalls) && LegalCalls(rc, rfirst, rcalls)
    requires var i, r := After(ic, ifirst, icalls).machine.state, After(rc, rfirst, rcalls).machine.state;
             i.Transport? && r.Transport? && i.sa.transcript == r.sa.transcript
    ensures var i, r := After(ic, ifirst, icalls).machine.state.sa, After(rc, rfirst, rcalls).machine.state.sa;
            && i.sendZpis == r.recvZpis == rc.recvZpis && r.sendZpis == i.recvZpis == ic.recvZpis
            && i.sendKey == r.recvKey && r.sendKey == i.recvKey
            && ProcessCert(ic, rc.localCert, rc.staticKey) == Some(i.peerCert)
            && ProcessCert(rc, ic.localCert, ic.staticKey) == Some(r.peerCert)
  {
    EveryRun(ic, ifirst, icalls);
    EveryRun(rc, rfirst, rcalls);
  }

  /** The peer's certificate passes this machine's checks. */
  predicate AcceptsCert(cfg: Config, blob: CertBlob, peerKey: Key) {
    var cert := ProcessCert(cfg, blob, peerKey);
    && cert.Some?
    && (cfg.verifyCert && cfg.authority.Some? ==> cert.value.Some? && cert.value.value.Verified?)
  }

  /**
  An undisturbed exchange, whatever the two machines went through before their resets, establishes
  both ends on one transcript exactly when each accepts the other's certificate.
  */
  lemma HonestHandshake(ic: Config, i: Machine, ik: Key, rc: Config, r: Machine, rk: Key, now: nat)
    requires ic.initiate && !rc.initiate
    ensures var (i0, m0) := Reset(ic, i, ik, true, true, now);
            var (r0, _) := Reset(rc, r, rk, true, true, now);
            var (r1, m1) := Handle(rc, r0, m0.msg, Noise, true, now);
            m1.Reply? &&
            var (i1, m2) := Handle(ic, i0, m1.msg, Noise, true, now);
            && (i1.state.Transport? <==> AcceptsCert(ic, rc.localCert, rc.staticKey))
            && (i1.state.Transport? ==>
                  var r2 := Handle(rc, r1, m2.msg, Noise, true, now).0;
                  && (r2.state.Transport? <==> AcceptsCert(rc, ic.localCert, ic.staticKey))
                  && (r2.state.Transport? ==> r2.state.sa.transcript == i1.state.sa.transcript))
  {
    var (i0, m0) := Reset(ic, i, ik, true, true, now);
    var (r0, _) := Reset(rc, r, rk, true, true, now);
    assert r0.hs.value.Reads(m0.msg.value);
    var (r1, m1) := Handle(rc, r0, m0.msg, Noise, true, now);
    assert r1.hs.value.transcript == [m0.msg.value, m1.msg.value];
    assert i0.hs.value.Reads(m1.msg.value);
  }

  /** The same machine, except perhaps for what `reset` leaves in place from an earlier attempt. */
  predicate Alike(m: Machine, n: Machine) {
    n == m.(sendZpis := n.sendZpis, peerCert := n.peerCert)
  }

  lemma AnswersAlike(cfg: Config, m: Machine, n: Machine, msg: Option<Msg>, km: KmId, writes: bool, now: nat)
    requires Inv(cfg, m) && Alike(m, n)
    ensures Alike(Handle(cfg, m, msg, km, writes, now).0, Handle(cfg, n, msg, km, writes, now).0)
    ensures Handle(cfg, m, msg, km, writes, now).1 == Handle(cfg, n, msg, km, writes, now).1
  {
  }

  /** The replies of a run of calls. */
  function Replies(w: World, calls: seq<Call>): seq<Reply>
    decreases |calls|
  {
    if calls == [] then [] else [Respond(w, calls[0]).1] + Replies(Next(w, calls[0]), calls[1..])
  }

  /**
  What `reset` leaves in place from an earlier attempt is dead: over every run, a machine that
  starts with other leftovers gives the same replies and is in the same states throughout.
  */
  lemma {:induction false} StaleFieldsAreDead(w: World, v: World, calls: seq<Call>)
    requires Sound(w) && Runs.Legal(KnownKm, Next, w, calls)
    requires v.cfg == w.cfg && v.panicked == w.panicked && Alike(w.machine, v.machine)
    ensures Replies(w, calls) == Replies(v, calls)
    ensures Alike(Runs.Run(Next, w, calls).machine, Runs.Run(Next, v, calls).machine)
    ensures Runs.Run(Next, w, calls).machine.state == Runs.Run(Next, v, calls).machine.state
    decreases |calls|
  {
    if calls != [] {
      var call := calls[0];
      if call.DoMessage? {
        AnswersAlike(w.cfg, w.machine, v.machine, call.msg, call.km, call.writes, call.now);
      }
      NextKeepsSound(w, call);
      StaleFieldsAreDead(Next(w, call), Next(v, call), calls[1..]);
    }
  }

  /**
  With another key-management type a message loses the session exactly when it completes the
  handshake: it is read, carries key material and a certificate that passes, and the initiator can
  write its answer. The machine then still says Configuring, and the next message fires the
  assertion.
  */
  lemma OtherKmLosesSession(cfg: Config, m: Machine, msg: Option<Msg>, writes: bool, now: nat)
    requires Inv(cfg, m) && m.state.Configuring?
    ensures var after := Handle(cfg, m, msg, OtherKm, writes, now).0;
            (after.state.Configuring? && after.hs.None?)
            <==>
            && m.msgNr >= 1 && msg.Some? && m.hs.value.Reads(msg.value) && msg.value.payload.KeyMsg?
            && AcceptsCert(cfg, msg.value.payload.cert, msg.value.staticKey)
            && (cfg.initiate ==> writes)
    ensures var after := Handle(cfg, m, msg, OtherKm, writes, now).0;
            after.state.Configuring? && after.hs.None? ==>
              forall any, km, w, t :: Handle(cfg, after, any, km, w, t).1 == Panicked
  {
  }

  /** A run that gets there: a reset initiator, the responder's answer twice. */
  lemma OtherKmPanics(cfg: Config, key: Key, peer: Key, zpis: ZpiPair)
    requires cfg.initiate && !cfg.verifyCert
    ensures var first := DoReset(key, true, true, 0);
            var hello := Reset(cfg, New(), key, true, true, 0).1;
            && hello.Reply? && hello.msg.Some?
            && var answer := DoMessage(Some(Msg([hello.msg.value], peer, KeyMsg(zpis, key, NoCert))), OtherKm, true, 0);
               After(cfg, first, [answer, answer]).panicked
  {
    var hello := Reset(cfg, New(), key, true, true, 0).1.msg.value;
    var answer := DoMessage(Some(Msg([hello], peer, KeyMsg(zpis, key, NoCert))), OtherKm, true, 0);
    var start := Next(World(cfg, New(), false), DoReset(key, true, true, 0));
    assert start.machine.hs.value.transcript == [hello];
    var lost := Next(start, answer);
    assert lost.machine.state == Configuring && lost.machine.hs.None?;
    assert Next(lost, answer).panicked;
    assert [answer, answer][1..] == [answer] && [answer][1..] == [];
    assert Runs.Run(Next, start, [answer, answer]) == Runs.Run(Next, lost, [answer]);
    assert Runs.Run(Next, lost, [answer]) == Runs.Run(Next, Next(lost, answer), []);
  }

  // ---------------------------------------------------------------- judgements, errors and timeouts

  /** How a certificate is judged: it must read and be for the key its sender used; an authority verifies it. */
  lemma CertJudged(cfg: Config, blob: CertBlob, peerKey: Key)
    ensures ProcessCert(cfg, blob, peerKey).None? <==> blob.BadCert? || (blob.Cert? && blob.key != peerKey)
    ensures ProcessCert(cfg, blob, peerKey) == Some(None) <==> blob.NoCert?
    ensures ProcessCert(cfg, blob, peerKey) == Some(Some(Verified(blob)))
       <==> blob.Cert? && blob.key == peerKey && cfg.authority == Some(blob.signer)
    ensures ProcessCert(cfg, blob, peerKey) == Some(Some(Unverified(blob)))
       <==> blob.Cert? && blob.key == peerKey && cfg.authority != Some(blob.signer)
  {
  }

  /** Which error a message gets, in a machine that runs; after any but the first the machine is in error. */
  lemma MessageErrors(cfg: Config, m: Machine, msg: Option<Msg>, km: KmId, writes: bool, now: nat)
    requires Inv(cfg, m) && km != OtherKm
    ensures var (n, r) := Handle(cfg, m, msg, km, writes, now);
            && (r == Failed(InvalidState) <==> !m.state.Configuring?)
            && (r == Failed(InvalidState) ==> n == m)
            && (r == Failed(CertExchangeError) <==>
                  && m.state.Configuring? && m.msgNr >= 1 && msg.Some? && m.hs.value.Reads(msg.value)
                  && msg.value.payload.KeyMsg? && cfg.verifyCert && cfg.authority.Some?
                  && var cert := ProcessCert(cfg, msg.value.payload.cert, msg.value.staticKey);
                     cert.Some? && !(cert.value.Some? && cert.value.value.Verified?))
            && (r.Failed? && m.state.Configuring? ==> n.state == Error)
            && (r.Reply? ==> n.state.Configuring? || n.state.Transport?)
  {
  }

  /** A tick: exactly an unanswered handshake older than fifteen seconds fails, once. */
  lemma TickIff(m: Machine, now: nat)
    ensures var late := m.state.Configuring? && m.hs.Some? && m.hsSentT.Some? && now > m.hsSentT.value + 15_000;
            && (Tick(m, now).1 == Failed(HandshakeError) <==> late)
            && (late ==> Tick(m, now).0 == m.(state := Error, hs := None, hsSentT := None))
            && (!late ==> Tick(m, now) == (m, Reply(None)))
  {
  }

  /** The clock starts with each message sent and stops with each one received. */
  lemma HandshakeTimesOut(cfg: Config, m: Machine, key: Key, sent: nat, now: nat)
    ensures cfg.initiate ==>
              (Tick(Reset(cfg, m, key, true, true, sent).0, now).1 == Failed(HandshakeError) <==> now > sent + 15_000)
    ensures !cfg.initiate ==> Tick(Reset(cfg, m, key, true, true, sent).0, now).1 == Reply(None)
  {
  }

  lemma AnswerTimesOut(cfg: Config, m: Machine, msg: Option<Msg>, km: KmId, writes: bool, sent: nat, now: nat)
    requires Inv(cfg, m) && km != OtherKm
    ensures var (n, r) := Handle(cfg, m, msg, km, writes, sent);
            r.Reply? && n.state.Configuring? ==>
              r.msg.Some? && (Tick(n, now).1 == Failed(HandshakeError) <==> now > sent + 15_000)
  {
  }

  /** The key made for an attempt is the one it hands out, and an association receives under. */
  ghost predicate UsesKey(m: Machine, key: Key) {
    m.recvKey == key && (m.state.Transport? ==> m.state.sa.recvKey == key)
  }

  lemma CallUsesKey(w: World, call: Call, key: Key)
    requires UsesKey(w.machine, key) && (call.DoReset? ==> call.key == key)
    ensures UsesKey(Next(w, call).machine, key)
  {
  }

  predicate WithinAttempt(w: World, call: Call) {
    !call.DoReset?
  }

  /** Every attempt uses its own key: from a reset to the next, whatever messages and ticks come. */
  lemma FreshKey(w: World, key: Key, builds: bool, writes: bool, now: nat, calls: seq<Call>)
    requires Runs.Legal(WithinAttempt, Next, Next(w, DoReset(key, builds, writes, now)), calls)
    ensures UsesKey(Runs.Run(Next, Next(w, DoReset(key, builds, writes, now)), calls).machine, key)
  {
    forall v: World, call | UsesKey(v.machine, key) && WithinAttempt(v, call)
      ensures UsesKey(Next(v, call).machine, key)
    {
      CallUsesKey(v, call, key);
    }
    var start := Next(w, DoReset(key, builds, writes, now));
    Runs.Invariant(WithinAttempt, Next, (v: World) => UsesKey(v.machine, key), start, calls);
  }

  /** What a reset answers: the initiator's first message, which carries no key yet, or the step that failed. */
  lemma ResetAnswers(cfg: Config, m: Machine, key: Key, builds: bool, writes: bool, now: nat)
    ensures var (n, r) := Reset(cfg, m, key, builds, writes, now);
            && r == (if !builds then Failed(MachineError)
                     else if !cfg.initiate then Reply(None)
                     else if !writes then Failed(HandshakeError)
                     else Reply(Some(Msg([], cfg.staticKey, NoKeyMsg))))
            && (n.state == Error <==> r.Failed?) && (r.Reply? ==> n.state == Configuring)
            && (r.Reply? ==> n.hsSentT == if cfg.initiate then Some(now) else None)
  {
  }
}

/**
An adapter's dock link together with its actor authorization: link events, replies from the node and
the worker's steps in any order (adapter/ph/src/link_state.rs, adapter/ph/src/actor_auth.rs).
*/
module DockSession {
  import opened Bytes
  import opened Classifier
  import opened ActorClient
  import Auth = ActorAuth
  import Ls = LinkState
  import Runs

  datatype Session = Session(link: Ls.Link, client: Client)

  const INITIAL := Session(Ls.NewLink(Ls.AdapterToNode), NEW_CLIENT)

  datatype Action = OnLink(event: Ls.Event, clears: bool) | OnClient(step: ClientAction)

  predicate Enabled(s: Session, a: Action) {
    match a
    case OnLink(event, _) => Ls.Enabled(s.link, event)
    case OnClient(step) => ClientEnabled(s.client, step)
  }

  /** A link event, and what it makes the authorization object do. */
  function LinkStep(s: Session, e: Ls.Event, clears: bool): Session {
    var (link, _, fx) := Ls.Apply(s.link, e);
    var down := if fx.actorDown then TornDown(s.client, clears) else s.client;
    Session(link, if fx.actorReady then LinkReady(down) else down)
  }

  function Next(s: Session, a: Action): Session {
    match a
    case OnLink(event, clears) => LinkStep(s, event, clears)
    case OnClient(step) =>
      if !ClientEnabled(s.client, step) then s else
      var t := s.(client := ClientStep(s.client, step));
      if EndsLink(s.client, step) then LinkStep(t, Ls.DoClose(Ls.Other, false), true) else t
  }

  // ---------------------------------------------------------------- what every run keeps

  /** Off an active link there is no worker and no address, so a new session starts from nothing. */
  predicate Inv(s: Session) {
    && s.link.kind == Ls.AdapterToNode && ClientInv(s.client)
    && (s.link.state != Ls.Active ==> s.client.worker.None? && s.client.state == Auth.WaitingForLink)
  }

  /** A step that leaves Active takes the actor down, and only one that enters it announces the link. */
  predicate Announced(l: Ls.Link, step: Ls.Step) {
    && step.0.kind == l.kind
    && (l.state == Ls.Active && step.0.state != Ls.Active ==> step.2.actorDown)
    && (step.2.actorReady ==> l.state != Ls.Active && step.0.state == Ls.Active && !step.2.actorDown)
    && (l.state != Ls.Active && step.0.state == Ls.Active ==> step.2.actorReady)
  }

  lemma CloseAnnounced(l: Ls.Link, reason: Ls.TerminateReason, vs: bool)
    requires l.kind == Ls.AdapterToNode
    ensures var (m, _, fx) := Ls.InitiateClose(l, reason, vs);
            m.kind == l.kind && m.state == Ls.Closing && fx.actorDown && !fx.actorReady
  {
  }

  lemma TimeoutAnnounced(l: Ls.Link, clock: Ls.Clock, vs: bool)
    requires l.kind == Ls.AdapterToNode
    ensures Announced(l, Ls.Timeout(l, clock, vs))
  {
    CloseAnnounced(Ls.SetState(l, Ls.Error, false), Ls.RequestTimedOut, vs);
    CloseAnnounced(Ls.SetState(l.(echo := false), Ls.Error, false), Ls.RequestTimedOut, vs);
  }

  lemma HelloAnnounced(l: Ls.Link, success: bool, address: Option<Address>, vsBootstrap: bool, tunOk: bool, vs: bool)
    requires l.kind == Ls.AdapterToNode
    ensures Announced(l, Ls.HelloResponse(l, success, address, vsBootstrap, tunOk, vs))
  {
    CloseAnnounced(l, Ls.Other, vs);
  }

  lemma TeardownAnnounced(l: Ls.Link)
    requires l.kind == Ls.AdapterToNode
    ensures Announced(l, Ls.TerminateLink(l)) && Announced(l, Ls.TerminateAck(l))
    ensures Announced(l, Ls.Reset(l)) && Announced(l, Ls.CloseDone(l))
  {
  }

  lemma LinkAnnounced(l: Ls.Link, e: Ls.Event)
    requires l.kind == Ls.AdapterToNode
    ensures Announced(l, Ls.Apply(l, e))
  {
    match e
    case DoHelloResponse(success, address, vsBootstrap, tunOk, vs) =>
      HelloAnnounced(l, success, address, vsBootstrap, tunOk, vs);
    case DoTerminateLink => TeardownAnnounced(l);
    case DoTerminateAck => TeardownAnnounced(l);
    case DoResetLink => TeardownAnnounced(l);
    case DoCloseDone => TeardownAnnounced(l);
    case DoClose(reason, vs) => CloseAnnounced(l, reason, vs);
    case FireTimer(clock, vs) =>
      TimeoutAnnounced(l.(history := l.history.(timers := l.history.timers - multiset{clock})), clock, vs);
    case _ =>
  }

  lemma LinkStepKeepsInv(s: Session, e: Ls.Event, clears: bool)
    requires Inv(s)
    ensures Inv(LinkStep(s, e, clears))
  {
    LinkAnnounced(s.link, e);
    DownKeepsInv(s.client, clears);
  }

  lemma NextKeepsInv(s: Session, a: Action)
    requires Inv(s) && Enabled(s, a)
    ensures Inv(Next(s, a))
    ensures s.client.rejected ==> Next(s, a).client.rejected && Next(s, a).client.requests == s.client.requests
  {
    if a.OnLink? {
      LinkStepKeepsInv(s, a.event, a.clears);
    } else {
      ClientStepKeepsInv(s.client, a.step);
      if EndsLink(s.client, a.step) {
        LinkStepKeepsInv(s.(client := ClientStep(s.client, a.step)), Ls.DoClose(Ls.Other, false), true);
      }
    }
  }

  /** Replies reach the wait they answer, the device is accounted for, and sessions do not leak into each other. */
  lemma EveryRun(actions: seq<Action>)
    requires Runs.Legal(Enabled, Next, INITIAL, actions)
    ensures Inv(Runs.Run(Next, INITIAL, actions))
  {
    forall s, a | Inv(s) && Enabled(s, a)
      ensures Inv(Next(s, a))
    {
      NextKeepsInv(s, a);
    }
    Runs.Invariant(Enabled, Next, Inv, INITIAL, actions);
  }

  /** A grant that cannot be installed ends the session: the link closes and the actor starts over with the next. */
  lemma FailedInstallEndsSession(s: Session, step: ClientAction)
    requires Inv(s) && ClientEnabled(s.client, step) && EndsLink(s.client, step)
    ensures var t := Next(s, OnClient(step));
            t.link.state == Ls.Closing && t.client.worker.None? && t.client.state == Auth.WaitingForLink
            && t.client.addresses == [] && t.client.tun == s.client.tun
  {
    ClientStepKeepsInv(s.client, step);
    CloseAnnounced(s.link, Ls.Other, false);
  }

  /** A rejection is final: whatever follows, nothing more is requested and no address is held. */
  lemma RejectionIsFinal(s: Session, actions: seq<Action>)
    requires Inv(s) && s.client.rejected && Runs.Legal(Enabled, Next, s, actions)
    ensures var after := Runs.Run(Next, s, actions).client;
            after.rejected && after.requests == s.client.requests && after.addresses == []
  {
    var n := s.client.requests;
    var inv := (t: Session) => Inv(t) && t.client.rejected && t.client.requests == n;
    forall t, a | inv(t) && Enabled(t, a)
      ensures inv(Next(t, a))
    {
      NextKeepsInv(t, a);
    }
    Runs.Invariant(Enabled, Next, inv, s, actions);
  }

  /** Bringing the link up starts the worker on its first attempt, with the shortest delay ahead of it. */
  lemma BringUpStartsWorker(s: Session, address: Address, vs: bool, clears: bool)
    requires Inv(s) && s.link.state == Ls.Helloing && !s.client.rejected
    ensures var t := Next(s, OnLink(Ls.DoHelloResponse(true, Some(address), false, true, vs), clears));
            && t.link.state == Ls.Active && t.link.aaa == Some(address)
            && t.client == s.client.(worker := Some(Opening), backoff := RETRY_INITIAL)
  {
  }

  /** After a rejection the link still comes up, and nothing is started on it. */
  lemma RejectedStaysIdle(s: Session, address: Address, vs: bool, clears: bool)
    requires Inv(s) && s.link.state == Ls.Helloing && s.client.rejected
    ensures var t := Next(s, OnLink(Ls.DoHelloResponse(true, Some(address), false, true, vs), clears));
            t.link.state == Ls.Active && t.client == s.client.(state := Auth.RejectedActor)
  {
  }
}

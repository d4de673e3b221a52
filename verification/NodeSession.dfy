/**
A node's link to an adapter together with the actor authorization on it: link events, requests from
the adapter and visa-service calls in any order (adapter/ph/src/link_state.rs,
adapter/ph/src/actor_auth.rs). As in ActorAuth, the link is not the visa service's own.
*/
module NodeSession {
  import opened Bytes
  import opened Classifier
  import Auth = ActorAuth
  import Ls = LinkState
  import Runs

  /** `dropped`: the peer is gone from the peer table; calls it started may still be under way. */
  datatype Site = Site(link: Ls.Link, dropped: bool, auth: Auth.World)

  const INITIAL := Site(Ls.NewLink(Ls.NodeToAdapter), false, Auth.INITIAL)

  datatype Action = OnLink(event: Ls.Event) | OnActor(action: Auth.Action)

  /** Events of a link that is not the visa service's. */
  predicate Ordinary(e: Ls.Event) {
    match e
    case DoHelloRequest(_, isVs, _) => !isVs
    case DoHelloResponse(_, _, _, _, vs) => !vs
    case DoClose(_, vs) => !vs
    case FireTimer(_, vs) => !vs
    case _ => true
  }

  /** A request finds the link as ready, and the peer as present, as they are. */
  predicate Sees(s: Site, a: Auth.Action) {
    var ready, peer := !s.dropped && s.link.ready, !s.dropped;
    match a
    case DoStart(_, r, p, _) => r == ready && p == peer
    case DoAbandon(_, r) => r == ready
    case DoAcquire(_, r, p, _, _) => r == ready && p == peer
    case LinkGoesDown => false  // only through the link
    case _ => true
  }

  predicate Enabled(s: Site, a: Action) {
    match a
    case OnLink(e) => !s.dropped && Ls.Enabled(s.link, e) && Ordinary(e)
    case OnActor(x) => Auth.Enabled(s.auth, x) && Sees(s, x)
  }

  function Next(s: Site, a: Action): Site {
    match a
    case OnLink(e) =>
      var (link, _, fx) := Ls.Apply(s.link, e);
      Site(link, s.dropped || fx.dropPeer, if fx.actorDown then Auth.Next(s.auth, Auth.LinkGoesDown) else s.auth)
    case OnActor(x) => s.(auth := Auth.Next(s.auth, x))
  }

  // ---------------------------------------------------------------- what every run keeps

  predicate Off(s: Site) {
    s.dropped || s.link.state != Ls.Active
  }

  predicate Idle(a: Auth.Actor) {
    a.remoteTxn.None? && a.addresses == []
  }

  predicate LinkInv(l: Ls.Link) {
    l.kind == Ls.NodeToAdapter && !l.state.Disconnecting? && (l.ready ==> l.state == Ls.Active)
  }

  /** Off an active link the actor holds neither a transaction nor an address. */
  ghost predicate Inv(s: Site) {
    LinkInv(s.link) && Auth.Inv(s.auth) && (Off(s) ==> Idle(s.auth.actor))
  }

  /** A step that leaves Active takes the actor down, and none drops a link that is active. */
  predicate TakesDown(l: Ls.Link, step: Ls.Step) {
    && LinkInv(step.0)
    && (l.state == Ls.Active && step.0.state != Ls.Active ==> step.2.actorDown)
    && (step.2.dropPeer ==> l.state != Ls.Active)
  }

  lemma CloseTakesDown(l: Ls.Link, reason: Ls.TerminateReason)
    requires l.kind == Ls.NodeToAdapter
    ensures var step := Ls.InitiateClose(l, reason, false);
            LinkInv(step.0) && step.0.state == Ls.Closing && step.2.actorDown && !step.2.dropPeer
  {
  }

  lemma BringUpTakesDown(l: Ls.Link, e: Ls.Event)
    requires LinkInv(l) && (e.DoStart? || e.DoKeyingDone? || e.DoKeepAlive? || e.DoDisconnectAck?)
    ensures TakesDown(l, Ls.Apply(l, e))
  {
  }

  lemma HelloTakesDown(l: Ls.Link, e: Ls.Event)
    requires LinkInv(l) && Ordinary(e) && (e.DoHelloRequest? || e.DoHelloResponse?)
    ensures TakesDown(l, Ls.Apply(l, e))
  {
    CloseTakesDown(l, Ls.Other);
  }

  lemma TeardownTakesDown(l: Ls.Link)
    requires LinkInv(l)
    ensures TakesDown(l, Ls.TerminateLink(l)) && TakesDown(l, Ls.TerminateAck(l))
    ensures TakesDown(l, Ls.Reset(l)) && TakesDown(l, Ls.CloseDone(l))
  {
  }

  lemma TimeoutTakesDown(l: Ls.Link, clock: Ls.Clock)
    requires LinkInv(l)
    ensures TakesDown(l, Ls.Timeout(l, clock, false))
  {
    CloseTakesDown(Ls.SetState(l.(echo := false), Ls.Error, false), Ls.RequestTimedOut);
  }

  lemma LinkTakesDown(l: Ls.Link, e: Ls.Event)
    requires LinkInv(l) && Ordinary(e)
    ensures TakesDown(l, Ls.Apply(l, e))
  {
    match e
    case DoHelloRequest(_, _, _) => HelloTakesDown(l, e);
    case DoHelloResponse(_, _, _, _, _) => HelloTakesDown(l, e);
    case DoTerminateLink => TeardownTakesDown(l);
    case DoTerminateAck => TeardownTakesDown(l);
    case DoResetLink => TeardownTakesDown(l);
    case DoCloseDone => TeardownTakesDown(l);
    case DoClose(reason, _) => CloseTakesDown(l, reason);
    case FireTimer(clock, _) =>
      TimeoutTakesDown(l.(history := l.history.(timers := l.history.timers - multiset{clock})), clock);
    case _ => BringUpTakesDown(l, e);
  }

  /** Without a ready link nothing makes an idle actor hold anything. */
  lemma IdleStays(w: Auth.World, a: Auth.Action)
    requires Idle(w.actor) && !a.LinkGoesDown?
    requires a.DoStart? ==> !a.ready
    ensures Idle(Auth.Next(w, a).actor)
  {
  }

  lemma LinkStepKeepsInv(s: Site, e: Ls.Event)
    requires Inv(s) && Enabled(s, OnLink(e))
    ensures Inv(Next(s, OnLink(e)))
  {
    LinkTakesDown(s.link, e);
    Auth.LinkDownKeepsInv(s.auth);
  }

  lemma NextKeepsInv(s: Site, a: Action)
    requires Inv(s) && Enabled(s, a)
    ensures Inv(Next(s, a))
  {
    match a
    case OnLink(e) => LinkStepKeepsInv(s, e);
    case OnActor(x) =>
      Auth.NextKeepsInv(s.auth, x);
      if Off(s) {
        IdleStays(s.auth, x);
      }
  }

  lemma RunKeepsInv(s: Site, actions: seq<Action>)
    requires Inv(s) && Runs.Legal(Enabled, Next, s, actions)
    ensures Inv(Runs.Run(Next, s, actions))
  {
    forall t, a | Inv(t) && Enabled(t, a)
      ensures Inv(Next(t, a))
    {
      NextKeepsInv(t, a);
    }
    Runs.Invariant(Enabled, Next, Inv, s, actions);
  }

  /**
  On every interleaving: off an active link the actor holds no transaction and no address, so every
  registration that a call has acted upon has been disconnected, exactly once.
  */
  lemma EveryRun(actions: seq<Action>)
    requires Runs.Legal(Enabled, Next, INITIAL, actions)
    ensures var s := Runs.Run(Next, INITIAL, actions);
            Inv(s) && (Off(s) ==> Auth.Registrations(s.auth.tasks) == s.auth.issued)
  {
    RunKeepsInv(INITIAL, actions);
  }

  /** A call that resumes off an active link leaves the actor alone and disconnects what it brings. */
  lemma LateGrantIsDisconnected(s: Site, t: nat)
    requires Inv(s) && Off(s) && Enabled(s, OnActor(Auth.TaskResumes(t)))
    ensures var after := Next(s, OnActor(Auth.TaskResumes(t)));
            && after.auth.actor == s.auth.actor
            && after.auth.issued == s.auth.issued + Auth.Brought(s.auth.tasks[t].verdict)
  {
  }

  /**
  Dropping the peer is final: whatever its calls do afterwards, the link owns nothing again and
  every registration acted upon is one that was disconnected.
  */
  lemma DroppedOwnsNothing(s: Site, actions: seq<Action>)
    requires Inv(s) && s.dropped && Runs.Legal(Enabled, Next, s, actions)
    ensures var after := Runs.Run(Next, s, actions);
            && after.dropped && Idle(after.auth.actor)
            && Auth.Registrations(after.auth.tasks) == after.auth.issued
  {
    var kept := (t: Site) => Inv(t) && t.dropped;
    forall t, a | kept(t) && Enabled(t, a)
      ensures kept(Next(t, a))
    {
      NextKeepsInv(t, a);
    }
    Runs.Invariant(Enabled, Next, kept, s, actions);
  }

  /** A finished close drops the peer, and nothing happens on its link afterwards. */
  lemma CloseDropsPeer(s: Site)
    requires Inv(s) && (s.link.state == Ls.Closing || s.link.state == Ls.Resetting)
    ensures var after := Next(s, OnLink(Ls.DoCloseDone));
            && after.dropped && after.auth == s.auth && Idle(after.auth.actor)
            && forall e :: !Enabled(after, OnLink(e))
  {
  }

  /** A lost link takes the actor down with it: its address is disconnected and its transaction forgotten. */
  lemma LostLinkTakesActorDown(s: Site, reason: Ls.TerminateReason)
    requires Inv(s)
    ensures var after := Next(s, OnLink(Ls.DoClose(reason, false)));
            && after.link.state == Ls.Closing && Idle(after.auth.actor)
            && after.auth.issued == s.auth.issued + multiset(s.auth.actor.addresses)
            && after.auth.tasks == s.auth.tasks
  {
    CloseTakesDown(s.link, reason);
  }
}

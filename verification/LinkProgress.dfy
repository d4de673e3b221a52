/**
What a link gets done (adapter/ph/src/link_state.rs): it never waits without a timer, what its
timers do, how it comes up, stays up and goes down, and which events it refuses.
*/
module LinkProgress {
  import opened Bytes
  import opened Classifier
  import opened LinkState
  import Runs

  // ---------------------------------------------------------------- waiting

  /** The link waits for its peer: for a hello, a keep-alive, or an acknowledged close. */
  predicate Waits(l: Link) {
    || (l.state == Helloing && l.kind == AdapterToNode)
    || l.state == Active
    || (l.state == Closing && !l.history.cleaned)
  }

  /** One that was cleaned up holds no address. */
  predicate Tidy(l: Link) {
    && (l.state == Resetting ==> l.history.cleaned)
    && (l.history.cleaned ==> l.aaa.None? && (l.state == Closing || l.state == Resetting))
  }

  /** A waiting link has a current timer. */
  predicate HasTimer(l: Link) {
    Tidy(l) && (Waits(l) ==> l.clock in l.history.timers)
  }

  lemma CloseHasTimer(l: Link, reason: TerminateReason, vs: bool)
    ensures HasTimer(InitiateClose(l, reason, vs).0) && HasTimer(ContinueClose(l).0)
  {
  }

  lemma BringUpHasTimer(l: Link, e: Event)
    requires HasTimer(l) && (e.DoStart? || e.DoKeyingDone? || e.DoKeepAlive? || e.DoDisconnectAck?)
    ensures HasTimer(Next(l, e))
  {
  }

  lemma RunActiveHasTimer(l: Link)
    ensures HasTimer(RunActive(l))
  {
  }

  lemma HelloRequestHasTimer(l: Link, address: Option<Address>, isVs: bool, vsconn: bool)
    requires HasTimer(l)
    ensures HasTimer(HelloRequest(l, address, isVs, vsconn).0)
  {
    if AwaitsHelloRequest(l) {
      if address.None? && !isVs {
        CloseHasTimer(l, Other, isVs && vsconn);
      } else {
        var m := if address.Some? then l.(aaa := address) else l;
        RunActiveHasTimer(m.(history := m.history.(bootstrap := isVs)));
      }
    }
  }

  lemma HelloResponseHasTimer(
    l: Link, success: bool, address: Option<Address>, vsBootstrap: bool, tunOk: bool, vs: bool)
    requires HasTimer(l)
    ensures HasTimer(HelloResponse(l, success, address, vsBootstrap, tunOk, vs).0)
  {
    if !success {
      CloseHasTimer(l, Other, vs);
    } else if l.kind == AdapterToNode && l.state == Helloing && (address.Some? || vsBootstrap) && tunOk {
      RunActiveHasTimer(l.(aaa := address, history := l.history.(bootstrap := vsBootstrap)));
    }
  }

  lemma TeardownHasTimer(l: Link)
    requires HasTimer(l)
    ensures HasTimer(TerminateLink(l).0) && HasTimer(TerminateAck(l).0)
    ensures HasTimer(Reset(l).0) && HasTimer(CloseDone(l).0)
  {
  }

  lemma TimeoutHasTimer(l: Link, clock: Clock, vs: bool)
    requires Tidy(l) && (clock != l.clock ==> HasTimer(l))
    ensures HasTimer(Timeout(l, clock, vs).0)
  {
    if clock == l.clock {
      if l.kind == AdapterToNode && l.state == Helloing {
        CloseHasTimer(SetState(l, Error, false), RequestTimedOut, vs);
      } else if l.state == Active && l.echo {
        CloseHasTimer(SetState(l.(echo := false), Error, false), RequestTimedOut, vs);
      }
    }
  }

  lemma FiringHasTimer(l: Link, clock: Clock, vs: bool)
    requires HasTimer(l)
    ensures HasTimer(Next(l, FireTimer(clock, vs)))
  {
    TimeoutHasTimer(l.(history := l.history.(timers := l.history.timers - multiset{clock})), clock, vs);
  }

  lemma NextHasTimer(l: Link, e: Event)
    requires HasTimer(l) && Enabled(l, e)
    ensures HasTimer(Next(l, e))
  {
    match e
    case DoHelloRequest(address, isVs, vsconn) => HelloRequestHasTimer(l, address, isVs, vsconn);
    case DoHelloResponse(success, address, vsBootstrap, tunOk, vs) =>
      HelloResponseHasTimer(l, success, address, vsBootstrap, tunOk, vs);
    case DoTerminateLink => TeardownHasTimer(l);
    case DoTerminateAck => TeardownHasTimer(l);
    case DoResetLink => TeardownHasTimer(l);
    case DoCloseDone => TeardownHasTimer(l);
    case DoClose(reason, vs) => CloseHasTimer(l, reason, vs);
    case FireTimer(clock, vs) => FiringHasTimer(l, clock, vs);
    case _ => BringUpHasTimer(l, e);
  }

  /** On every run a waiting link has a current timer, and before the clock wraps exactly one. */
  lemma EveryWaitHasATimer(kind: LinkType, events: seq<Event>)
    requires Legal(NewLink(kind), events)
    ensures var l := Run(NewLink(kind), events);
            && HasTimer(l)
            && (Waits(l) && l.history.ticks < CLOCK_MOD ==> l.history.timers[l.clock] == 1)
  {
    forall l, e | HasTimer(l) && Enabled(l, e)
      ensures HasTimer(Next(l, e))
    {
      NextHasTimer(l, e);
    }
    Runs.Invariant(Enabled, Next, HasTimer, NewLink(kind), events);
    EveryRun(kind, events);
  }

  // ---------------------------------------------------------------- what timers do

  function Fired(l: Link, vs: bool): Step {
    Apply(l, FireTimer(l.clock, vs))
  }

  /** A closing link whose peer stays silent is cleaned up by its timer: exactly its address is released. */
  lemma SilentCloseIsCleanedUp(l: Link, vs: bool)
    requires l.state == Closing
    ensures var (m, r, fx) := Fired(l, vs);
            && r == Ok && m.state == Closing && m.kind == l.kind && m.shuttingDown == l.shuttingDown
            && m.aaa.None? && m.history.cleaned
            && fx == NONE.(actorDown := true, releaseAaa := l.aaa, closeDone := true)
  {
  }

  /** A hello without an answer closes the link. */
  lemma SilentHelloCloses(l: Link, vs: bool)
    requires l.state == Helloing && l.kind == AdapterToNode
    ensures var (m, r, fx) := Fired(l, vs);
            && r == Ok && m.state == Closing && !m.history.cleaned && m.aaa == l.aaa
            && fx == NONE.(actorDown := true, spawn := Terminate)
  {
  }

  /** An active link asks first, and is closed when it asked before. */
  lemma SilentPeerIsAskedOnce(l: Link, vs: bool)
    requires l.state == Active
    ensures var (m, r, fx) := Fired(l, vs);
            && r == Ok && m.kind == l.kind && m.aaa == l.aaa
            && (!l.echo ==> m.state == Active && m.echo && m.ready == l.ready && fx == NONE.(spawn := Echo))
            && (l.echo ==> !m.echo && !m.ready)
            && (l.echo && !(l.kind == NodeToAdapter && vs) ==>
                  m.state == Closing && fx == NONE.(actorDown := true, spawn := Terminate))
            && (l.echo && l.kind == NodeToAdapter && vs ==>
                  m.state == Disconnecting(RequestTimedOut) && fx == NONE.(spawn := Disconnect))
  {
  }

  /** One round of keep-alive: the timer fires and the peer answers. */
  function Round(l: Link, vs: bool): Link {
    Next(Fired(l, vs).0, DoKeepAlive)
  }

  predicate Steady(l: Link, address: Option<Address>) {
    l.state == Active && l.ready && !l.echo && l.aaa == address && l.clock in l.history.timers
  }

  lemma RoundKeepsSteady(l: Link, vs: bool)
    requires Steady(l, l.aaa)
    ensures Steady(Round(l, vs), l.aaa)
  {
    SilentPeerIsAskedOnce(l, vs);
  }

  /** A link whose peer answers stays active, with its address, for any number of rounds. */
  lemma AnsweredStaysActive(l: Link, rounds: seq<bool>)
    requires Steady(l, l.aaa)
    ensures Steady(Runs.Run(Round, l, rounds), l.aaa)
  {
    forall m, vs | Steady(m, l.aaa)
      ensures Steady(Round(m, vs), l.aaa)
    {
      RoundKeepsSteady(m, vs);
    }
    AllLegal(l, rounds);
    Runs.Invariant((m: Link, vs: bool) => true, Round, m => Steady(m, l.aaa), l, rounds);
  }

  lemma {:induction false} AllLegal(l: Link, rounds: seq<bool>)
    ensures Runs.Legal((m: Link, vs: bool) => true, Round, l, rounds)
    decreases |rounds|
  {
    if rounds != [] {
      AllLegal(Round(l, rounds[0]), rounds[1..]);
    }
  }

  /** One that does not is closed by the second timer. */
  lemma UnansweredCloses(l: Link)
    requires l.state == Active && !l.echo
    ensures var asked := Fired(l, false).0;
            Fired(asked, false).0.state == Closing && asked.clock in asked.history.timers
  {
    SilentPeerIsAskedOnce(l, false);
    SilentPeerIsAskedOnce(Fired(l, false).0, false);
  }

  // ---------------------------------------------------------------- up and down

  function Keyed(l: Link): Link {
    Next(Next(l, DoStart), DoKeyingDone(true, true))
  }

  lemma KeyedIsHelloing(l: Link)
    requires l.state == Inactive && l.kind != NodeToNode
    ensures var m := Keyed(l);
            && m.state == Helloing && m.kind == l.kind && m.up && !m.ready
            && m.aaa == l.aaa && m.shuttingDown == l.shuttingDown
  {
  }

  /** An adapter's link comes up with the address the node assigned, and tells the actor. */
  lemma AdapterComesUp(l: Link, address: Address, vs: bool)
    requires l.state == Inactive && l.kind == AdapterToNode
    ensures var (m, r, fx) := Apply(Keyed(l), DoHelloResponse(true, Some(address), false, true, vs));
            && r == Ok && m.state == Active && m.ready && !m.echo && m.aaa == Some(address)
            && m.clock in m.history.timers && fx == NONE.(actorReady := true)
  {
    KeyedIsHelloing(l);
  }

  /** A node's link comes up with the address the pool handed out. */
  lemma NodeComesUp(l: Link, address: Address, vsconn: bool)
    requires l.state == Inactive && l.kind == NodeToAdapter
    ensures var (m, r, fx) := Apply(Keyed(l), DoHelloRequest(Some(address), false, vsconn));
            && r == Ok && m.state == Active && m.ready && !m.echo && m.aaa == Some(address)
            && m.clock in m.history.timers && fx == NONE
  {
    KeyedIsHelloing(l);
  }

  /** The visa service's own link comes up without an address, on either side. */
  lemma VsComesUp(l: Link, vs: bool)
    requires l.state == Inactive
    ensures l.kind == NodeToAdapter ==>
              var (m, r, fx) := Apply(Keyed(l), DoHelloRequest(None, true, vs));
              r == Ok && m.state == Active && m.ready && m.aaa == l.aaa && m.history.bootstrap && fx == NONE
    ensures l.kind == AdapterToNode ==>
              var (m, r, fx) := Apply(Keyed(l), DoHelloResponse(true, None, true, true, vs));
              && r == Ok && m.state == Active && m.ready && m.aaa.None? && m.history.bootstrap
              && fx == NONE.(actorReady := true)
  {
    if l.kind != NodeToNode {
      KeyedIsHelloing(l);
    }
  }

  /** A hello that gets no address closes the link: the pool is empty, or the node says no. */
  lemma NoAddressCloses(l: Link, vs: bool)
    requires l.state == Inactive && l.kind != NodeToNode
    ensures var e := if l.kind == NodeToAdapter then DoHelloRequest(None, false, vs)
                     else DoHelloResponse(false, None, false, true, vs);
            var (m, r, fx) := Apply(Keyed(l), e);
            r == Ok && m.state == Closing && m.aaa == l.aaa && fx == NONE.(actorDown := true, spawn := Terminate)
  {
    KeyedIsHelloing(l);
  }

  /**
  A close runs to its end whether the peer acknowledges it or not: the address is released once, and
  the finished close drops a node's link and one that is shutting down, and restarts any other.
  */
  lemma CloseRunsToItsEnd(l: Link, reason: TerminateReason, acked: bool)
    ensures var (closing, _, fx0) := Apply(l, DoClose(reason, false));
            var (clean, _, fx1) := if acked then Apply(closing, DoTerminateAck) else Fired(closing, false);
            var (done, _, fx2) := Apply(clean, DoCloseDone);
            var final := l.kind == NodeToAdapter || l.shuttingDown || reason == Shutdown;
            && closing.state == Closing && !closing.ready && closing.clock in closing.history.timers
            && fx0 == NONE.(actorDown := true, spawn := Terminate)
            && clean.aaa.None? && fx1 == NONE.(actorDown := true, releaseAaa := l.aaa, closeDone := true)
            && fx2 == (if final then NONE.(dropPeer := true) else NONE.(spawn := Restart))
            && (l.kind != NodeToAdapter ==> done.state == Inactive)
  {
    CloseStep(l, reason);
    var closing := Next(l, DoClose(reason, false));
    SilentCloseIsCleanedUp(closing, false);
    AckedCloseIsCleanedUp(closing);
    var clean := if acked then Next(closing, DoTerminateAck) else Fired(closing, false).0;
    CloseDoneEnds(clean);
  }

  lemma CloseStep(l: Link, reason: TerminateReason)
    ensures var (m, r, fx) := Apply(l, DoClose(reason, false));
            && r == Ok && m.state == Closing && !m.ready && m.clock in m.history.timers && m.aaa == l.aaa
            && m.kind == l.kind && m.shuttingDown == (l.shuttingDown || reason == Shutdown)
            && fx == NONE.(actorDown := true, spawn := Terminate)
  {
  }

  lemma AckedCloseIsCleanedUp(l: Link)
    requires l.state == Closing
    ensures var (m, r, fx) := Apply(l, DoTerminateAck);
            && r == Ok && m.state == Closing && m.kind == l.kind && m.shuttingDown == l.shuttingDown
            && m.aaa.None? && m.history.cleaned && m.clock == WrappingSucc(l.clock)
            && fx == NONE.(actorDown := true, releaseAaa := l.aaa, closeDone := true)
  {
  }

  lemma CloseDoneEnds(l: Link)
    requires l.state == Closing
    ensures var (m, _, fx) := Apply(l, DoCloseDone);
            && fx == (if l.kind == NodeToAdapter || l.shuttingDown then NONE.(dropPeer := true)
                      else NONE.(spawn := Restart))
            && (l.kind != NodeToAdapter ==> m.state == Inactive)
  {
  }

  /** The peer's own terminate message and a reset clean up at once, from any state. */
  lemma PeerEndsLink(l: Link)
    ensures var (m, r, fx) := Apply(l, DoTerminateLink);
            && r == Ok && m.state == Closing && m.aaa.None? && !m.ready
            && fx == NONE.(actorDown := true, releaseAaa := l.aaa, closeDone := true)
    ensures var (m, r, fx) := Apply(l, DoResetLink);
            && r == Ok && m.state == Resetting && m.aaa.None? && !m.ready
            && fx == NONE.(actorDown := true, releaseAaa := l.aaa, closeDone := true)
            && Apply(m, DoCloseDone).2 == NONE.(dropPeer := true)
  {
  }

  /** The visa service's link disconnects first, and then closes like any other. */
  lemma VsLinkDisconnectsFirst(l: Link, reason: TerminateReason)
    requires l.kind == NodeToAdapter
    ensures var (m, r, fx) := Apply(l, DoClose(reason, true));
            && r == Ok && m.state == Disconnecting(reason) && m.aaa == l.aaa && fx == NONE.(spawn := Disconnect)
            && var (n, q, gx) := Apply(m, DoDisconnectAck);
               q == Ok && n.state == Closing && n.aaa == l.aaa && gx == NONE.(actorDown := true, spawn := Terminate)
  {
  }

  predicate Keeps(l: Link, m: Link) {
    m.shuttingDown == l.shuttingDown && m.kind == l.kind
  }

  lemma CloseLatch(l: Link, reason: TerminateReason, vs: bool)
    ensures var m := InitiateClose(l, reason, vs).0;
            m.kind == l.kind && m.shuttingDown == (l.shuttingDown || reason == Shutdown)
  {
  }

  lemma HelloRequestKeeps(l: Link, address: Option<Address>, isVs: bool, vsconn: bool)
    ensures Keeps(l, HelloRequest(l, address, isVs, vsconn).0)
  {
    CloseLatch(l, Other, isVs && vsconn);
  }

  lemma HelloResponseKeeps(
    l: Link, success: bool, address: Option<Address>, vsBootstrap: bool, tunOk: bool, vs: bool)
    ensures Keeps(l, HelloResponse(l, success, address, vsBootstrap, tunOk, vs).0)
  {
    CloseLatch(l, Other, vs);
  }

  lemma TimeoutKeeps(l: Link, clock: Clock, vs: bool)
    ensures Keeps(l, Timeout(l, clock, vs).0)
  {
    CloseLatch(SetState(l, Error, false), RequestTimedOut, vs);
    CloseLatch(SetState(l.(echo := false), Error, false), RequestTimedOut, vs);
  }

  lemma OthersKeep(l: Link, e: Event)
    requires !e.DoHelloRequest? && !e.DoHelloResponse? && !e.DoClose? && !e.FireTimer?
    ensures Keeps(l, Next(l, e))
  {
  }

  /** Only a shutdown sets the latch, nothing clears it, and a link keeps its type. */
  lemma ShutdownLatch(l: Link, e: Event)
    ensures Next(l, e).shuttingDown <==> l.shuttingDown || (e.DoClose? && e.reason == Shutdown)
    ensures Next(l, e).kind == l.kind
  {
    match e
    case DoHelloRequest(address, isVs, vsconn) => HelloRequestKeeps(l, address, isVs, vsconn);
    case DoHelloResponse(success, address, vsBootstrap, tunOk, vs) =>
      HelloResponseKeeps(l, success, address, vsBootstrap, tunOk, vs);
    case DoClose(reason, vs) => CloseLatch(l, reason, vs);
    case FireTimer(clock, vs) =>
      TimeoutKeeps(l.(history := l.history.(timers := l.history.timers - multiset{clock})), clock, vs);
    case _ => OthersKeep(l, e);
  }

  // ---------------------------------------------------------------- refusals

  /** Which events a link takes in its state. */
  predicate Takes(l: Link, e: Event) {
    match e
    case DoStart => l.state == Inactive && l.kind != NodeToNode
    case DoKeyingDone(peerPresent, sa) => l.state == Keying && peerPresent && sa
    case DoHelloRequest(_, _, _) => l.state == Helloing && l.kind == NodeToAdapter
    case DoHelloResponse(success, address, vsBootstrap, tunOk, _) =>
      success ==> l.state == Helloing && l.kind == AdapterToNode && (address.Some? || vsBootstrap) && tunOk
    case DoKeepAlive => l.state == Active && l.echo
    case DoTerminateAck => l.state == Closing
    case DoDisconnectAck => l.state.Disconnecting? && l.kind == NodeToAdapter
    case FireTimer(clock, _) =>
      clock == l.clock ==> l.state == Active || l.state == Closing || (l.state == Helloing && l.kind == AdapterToNode)
    case _ => true
  }

  /** Exactly those; and a refused event changes nothing the link waits by, and has no effect. */
  lemma RefusedIff(l: Link, e: Event)
    requires l.ready ==> l.state == Active
    ensures var (m, r, fx) := Apply(l, e);
            && (r == Ok <==> Takes(l, e))
            && (r != Ok ==> fx == NONE && m.ready == l.ready && m.echo == l.echo)
            && (r != Ok && r != NotSupported ==> m.state == l.state && m.clock == l.clock)
            && (r != Ok && !e.DoHelloResponse? ==> m.aaa == l.aaa)
            && (r == NotSupported <==> e.DoStart? && l.state == Inactive && l.kind == NodeToNode)
            && (r == NotFound <==> e.DoKeyingDone? && l.state == Keying && !e.peerPresent)
            && (r == InvalidOperation <==>
                  && !Takes(l, e)
                  && (e.DoDisconnectAck? || e.FireTimer?
                      || (e.DoHelloResponse? && l.kind == AdapterToNode && l.state == Helloing)))
  {
  }
}

/**
The link lifecycle (adapter/ph/src/link_state.rs) of one encrypted link.

Each handler is one atomic step, as on the management thread. What a handler learns from outside
(security association, special peers, TUN calls) is an argument; what it starts or calls outside
is an effect. Internal links, which never change state, are not modelled.
*/
module LinkState {
  import opened Bytes
  import opened Classifier
  import Runs

  datatype TerminateReason = Other | RequestTimedOut | ResetByPeer | Shutdown

  datatype State = Inactive | Keying | Helloing | Disconnecting(reason: TerminateReason) | Closing | Resetting | Active | Error

  datatype LinkType = AdapterToNode | NodeToNode | NodeToAdapter

  datatype Result = Ok | UnexpectedTransition | InvalidOperation | NotFound | NotSupported

  /** A task the handler starts. */
  datatype Spawn = Nothing | Restart | Disconnect | Terminate | Echo

  /** What a handler does outside the link. */
  datatype Effects = Effects(
    releaseAaa: Option<Address>, closeDone: bool, dropPeer: bool, actorDown: bool, actorReady: bool, spawn: Spawn)

  const NONE := Effects(None, false, false, false, false, Nothing)

  const CLOCK_MOD: nat := 0x1_0000_0000_0000_0000

  type Clock = x: int | 0 <= x < CLOCK_MOD

  function WrappingSucc(c: Clock): Clock {
    if c + 1 == CLOCK_MOD then 0 else c + 1
  }

  /** A state entered, and whether a security association was established at that moment. */
  datatype Visit = Visit(state: State, sa: bool)

  /**
  What a link went through: the states entered since it was last inactive, whether its hello was a
  visa-service bootstrap, the timers started and not yet fired (a cancelled one may still fire),
  how often the clock advanced, and whether its state was cleaned up since it entered it.
  */
  datatype History = History(visits: seq<Visit>, bootstrap: bool, timers: multiset<Clock>, ticks: nat, cleaned: bool)

  datatype Link = Link(
    kind: LinkType, state: State, up: bool, ready: bool, clock: Clock, echo: bool, shuttingDown: bool,
    aaa: Option<Address>, history: History)

  function NewLink(kind: LinkType): Link {
    Link(kind, Inactive, false, false, 0, false, false, None, History([], false, multiset{}, 0, false))
  }

  type Step = (Link, Result, Effects)

  // ---------------------------------------------------------------- the timer clock

  function CancelTimeout(l: Link): Link {
    l.(clock := WrappingSucc(l.clock), history := l.history.(ticks := l.history.ticks + 1))
  }

  function SetState(l: Link, s: State, sa: bool): Link {
    var visits := if s == Inactive then [] else l.history.visits + [Visit(s, sa)];
    CancelTimeout(l.(state := s, ready := l.up && s == Active, history := l.history.(visits := visits, cleaned := false)))
  }

  function SetTimeout(l: Link): Link {
    var m := CancelTimeout(l);
    m.(history := m.history.(timers := m.history.timers + multiset{m.clock}))
  }

  // ---------------------------------------------------------------- handlers as values

  function Start(l: Link): Step {
    if l.state != Inactive then (l, UnexpectedTransition, NONE) else
    var m := SetState(l.(up := true), Keying, false);
    if l.kind == NodeToNode then (SetState(m, Error, false), NotSupported, NONE) else (m, Ok, NONE)
  }

  function KeyingDone(l: Link, peerPresent: bool, sa: bool): Step {
    if l.state != Keying then (l, UnexpectedTransition, NONE)
    else if !peerPresent then (l, NotFound, NONE)
    else if !sa then (l, UnexpectedTransition, NONE)
    else
      var m := SetState(l, Helloing, sa);
      (if l.kind == AdapterToNode then SetTimeout(m) else m, Ok, NONE)
  }

  function RunActive(l: Link): Link {
    SetTimeout(SetState(l, Active, false).(echo := false))
  }

  predicate AwaitsHelloRequest(l: Link) {
    l.kind == NodeToAdapter && l.state == Helloing
  }

  /** `aaa` is what the pool hands out, `None` while there is no pool. */
  function HelloRequest(l: Link, aaa: Option<Address>, isVs: bool, vsconn: bool): Step {
    if !AwaitsHelloRequest(l) then (l, UnexpectedTransition, NONE)
    else if aaa.None? && !isVs then InitiateClose(l, Other, isVs && vsconn)
    else
      var m := if aaa.Some? then l.(aaa := aaa) else l;
      (RunActive(m.(history := m.history.(bootstrap := isVs))), Ok, NONE)
  }

  function HelloResponse(
    l: Link, success: bool, aaa: Option<Address>, vsBootstrap: bool, tunOk: bool, vs: bool): Step
  {
    if !success then InitiateClose(l, Other, vs)
    else if l.kind != AdapterToNode || l.state != Helloing then (l, UnexpectedTransition, NONE)
    else if aaa.None? && !vsBootstrap then (l, InvalidOperation, NONE)
    else
      var m := l.(aaa := aaa);
      if !tunOk then (m, InvalidOperation, NONE)
      else (RunActive(m.(history := m.history.(bootstrap := vsBootstrap))), Ok, NONE.(actorReady := true))
  }

  /** `vs`: this is the link to the visa service's adapter and the node has a connection to close. */
  function InitiateClose(l: Link, reason: TerminateReason, vs: bool): Step {
    var m := l.(shuttingDown := l.shuttingDown || reason == Shutdown);
    if l.kind == NodeToAdapter && vs then (SetState(m, Disconnecting(reason), false), Ok, NONE.(spawn := Disconnect))
    else ContinueClose(m)
  }

  function ContinueClose(l: Link): Step {
    (SetTimeout(SetState(l, Closing, false)), Ok, NONE.(actorDown := true, spawn := Terminate))
  }

  function DisconnectAck(l: Link): Step {
    if l.kind == NodeToAdapter && l.state.Disconnecting? then ContinueClose(l) else (l, InvalidOperation, NONE)
  }

  function CleanUp(l: Link): Step {
    if l.state == Closing || l.state == Resetting then
      (l.(aaa := None, history := l.history.(cleaned := true)), Ok,
       NONE.(actorDown := true, releaseAaa := l.aaa, closeDone := true))
    else
      (l, Ok, NONE)
  }

  function CloseDone(l: Link): Step {
    match l.state
    case Resetting => (l, Ok, NONE.(dropPeer := true))
    case Closing =>
      if l.kind == NodeToAdapter then (l, Ok, NONE.(dropPeer := true))
      else (SetState(l, Inactive, false), Ok, if l.shuttingDown then NONE.(dropPeer := true) else NONE.(spawn := Restart))
    case _ => (l, Ok, NONE)
  }

  function Reset(l: Link): Step {
    CleanUp(SetState(l, Resetting, false))
  }

  function TerminateAck(l: Link): Step {
    if l.state == Closing then CleanUp(CancelTimeout(l)) else (l, UnexpectedTransition, NONE)
  }

  function TerminateLink(l: Link): Step {
    CleanUp(SetState(l, Closing, false))
  }

  function KeepAliveResponse(l: Link): Step {
    if l.state != Active || !l.echo then (l, UnexpectedTransition, NONE)
    else (SetTimeout(l.(echo := false)), Ok, NONE)
  }

  function Timeout(l: Link, clock: Clock, vs: bool): Step {
    if clock != l.clock then (l, Ok, NONE)
    else if l.kind == AdapterToNode && l.state == Helloing then
      InitiateClose(SetState(l, Error, false), RequestTimedOut, vs)
    else if l.state == Active && l.echo then
      InitiateClose(SetState(l.(echo := false), Error, false), RequestTimedOut, vs)
    else if l.state == Active then (SetTimeout(l.(echo := true)), Ok, NONE.(spawn := Echo))
    else if l.state == Closing then CleanUp(l)
    else (l, InvalidOperation, NONE)
  }

  // ---------------------------------------------------------------- the link as an object

  class LinkStateWrapper {
    const kind: LinkType
    var state: State
    var up: bool
    var ready: bool
    var logicalClock: Clock
    var echo: bool
    var shuttingDown: bool
    var aaa: Option<Address>
    ghost var history: History

    constructor (kind: LinkType)
      ensures Value() == NewLink(kind)
    {
      this.kind := kind;
      state, up, ready, logicalClock, echo, shuttingDown, aaa := Inactive, false, false, 0, false, false, None;
      history := History([], false, multiset{}, 0, false);
    }

    ghost function Value(): Link
      reads this
    {
      Link(kind, state, up, ready, logicalClock, echo, shuttingDown, aaa, history)
    }

    method DoCancelTimeout()
      modifies this
      ensures Value() == CancelTimeout(old(Value()))
    {
      logicalClock := WrappingSucc(logicalClock);
      history := history.(ticks := history.ticks + 1);
    }

    method DoSetState(s: State, ghost sa: bool)
      modifies this
      ensures Value() == SetState(old(Value()), s, sa)
    {
      state := s;
      ready := up && s == Active;
      history := history.(visits := if s == Inactive then [] else history.visits + [Visit(s, sa)], cleaned := false);
      DoCancelTimeout();
    }

    method DoSetTimeout()
      modifies this
      ensures Value() == SetTimeout(old(Value()))
    {
      DoCancelTimeout();
      history := history.(timers := history.timers + multiset{logicalClock});
    }

    method ProcessStart() returns (r: Result, effects: Effects)
      modifies this
      ensures (Value(), r, effects) == Start(old(Value()))
    {
      effects := NONE;
      if state != Inactive {
        return UnexpectedTransition, NONE;
      }
      up := true;
      DoSetState(Keying, false);
      if kind == NodeToNode {
        DoSetState(Error, false);
        return NotSupported, NONE;
      }
      r := Ok;
    }

    method ProcessKeyingDone(peerPresent: bool, sa: bool) returns (r: Result, effects: Effects)
      modifies this
      ensures (Value(), r, effects) == KeyingDone(old(Value()), peerPresent, sa)
    {
      effects := NONE;
      if state != Keying {
        return UnexpectedTransition, NONE;
      }
      if !peerPresent {
        return NotFound, NONE;
      }
      if !sa {
        return UnexpectedTransition, NONE;
      }
      DoSetState(Helloing, sa);
      if kind == AdapterToNode {
        DoSetTimeout();
      }
      r := Ok;
    }

    method DoRunActive()
      modifies this
      ensures Value() == RunActive(old(Value()))
    {
      DoSetState(Active, false);
      echo := false;
      DoSetTimeout();
    }

    method ProcessHelloRequest(address: Option<Address>, isVs: bool, vsconn: bool)
      returns (r: Result, effects: Effects)
      modifies this
      ensures (Value(), r, effects) == HelloRequest(old(Value()), address, isVs, vsconn)
    {
      if kind != NodeToAdapter || state != Helloing {
        return UnexpectedTransition, NONE;
      }
      if address.None? && !isVs {
        r, effects := DoInitiateClose(Other, isVs && vsconn);
        return;
      }
      if address.Some? {
        aaa := address;
      }
      history := history.(bootstrap := isVs);
      DoRunActive();
      return Ok, NONE;
    }

    method ProcessHelloResponse(success: bool, address: Option<Address>, vsBootstrap: bool, tunOk: bool, vs: bool)
      returns (r: Result, effects: Effects)
      modifies this
      ensures (Value(), r, effects) == HelloResponse(old(Value()), success, address, vsBootstrap, tunOk, vs)
    {
      if !success {
        r, effects := DoInitiateClose(Other, vs);
        return;
      }
      if kind != AdapterToNode || state != Helloing {
        return UnexpectedTransition, NONE;
      }
      if address.None? && !vsBootstrap {
        return InvalidOperation, NONE;
      }
      aaa := address;
      if !tunOk {
        return InvalidOperation, NONE;
      }
      history := history.(bootstrap := vsBootstrap);
      DoRunActive();
      return Ok, NONE.(actorReady := true);
    }

    method DoInitiateClose(reason: TerminateReason, vs: bool) returns (r: Result, effects: Effects)
      modifies this
      ensures (Value(), r, effects) == InitiateClose(old(Value()), reason, vs)
    {
      if reason == Shutdown {
        shuttingDown := true;
      }
      if kind == NodeToAdapter && vs {
        DoSetState(Disconnecting(reason), false);
        return Ok, NONE.(spawn := Disconnect);
      }
      r, effects := DoContinueClose();
    }

    method DoContinueClose() returns (r: Result, effects: Effects)
      modifies this
      ensures (Value(), r, effects) == ContinueClose(old(Value()))
    {
      DoSetState(Closing, false);
      DoSetTimeout();
      return Ok, NONE.(actorDown := true, spawn := Terminate);
    }

    method ProcessDisconnectAck() returns (r: Result, effects: Effects)
      modifies this
      ensures (Value(), r, effects) == DisconnectAck(old(Value()))
    {
      if kind == NodeToAdapter && state.Disconnecting? {
        r, effects := DoContinueClose();
      } else {
        return InvalidOperation, NONE;
      }
    }

    method DoCleanUp() returns (r: Result, effects: Effects)
      modifies this
      ensures (Value(), r, effects) == CleanUp(old(Value()))
    {
      if state != Closing && state != Resetting {
        return Ok, NONE;
      }
      var held := aaa;
      aaa := None;
      history := history.(cleaned := true);
      return Ok, NONE.(actorDown := true, releaseAaa := held, closeDone := true);
    }

    method CompleteClose() returns (r: Result, effects: Effects)
      modifies this
      ensures (Value(), r, effects) == CloseDone(old(Value()))
    {
      if (state == Closing && kind == NodeToAdapter) || state == Resetting {
        return Ok, NONE.(dropPeer := true);
      }
      if state == Closing {
        DoSetState(Inactive, false);
        return Ok, if shuttingDown then NONE.(dropPeer := true) else NONE.(spawn := Restart);
      }
      return Ok, NONE;
    }

    method DoReset() returns (r: Result, effects: Effects)
      modifies this
      ensures (Value(), r, effects) == Reset(old(Value()))
    {
      DoSetState(Resetting, false);
      r, effects := DoCleanUp();
    }

    method ProcessTerminateAck() returns (r: Result, effects: Effects)
      modifies this
      ensures (Value(), r, effects) == TerminateAck(old(Value()))
    {
      if state != Closing {
        return UnexpectedTransition, NONE;
      }
      DoCancelTimeout();
      r, effects := DoCleanUp();
    }

    method ProcessTerminateLink() returns (r: Result, effects: Effects)
      modifies this
      ensures (Value(), r, effects) == TerminateLink(old(Value()))
    {
      DoSetState(Closing, false);
      r, effects := DoCleanUp();
    }

    method ProcessKeepAliveResponse() returns (r: Result, effects: Effects)
      modifies this
      ensures (Value(), r, effects) == KeepAliveResponse(old(Value()))
    {
      if state != Active || !echo {
        return UnexpectedTransition, NONE;
      }
      echo := false;
      DoSetTimeout();
      return Ok, NONE;
    }

    method ProcessTimeout(clock: Clock, vs: bool) returns (r: Result, effects: Effects)
      modifies this
      ensures (Value(), r, effects) == Timeout(old(Value()), clock, vs)
    {
      if clock != logicalClock {
        return Ok, NONE;
      }
      if kind == AdapterToNode && state == Helloing {
        DoSetState(Error, false);
        r, effects := DoInitiateClose(RequestTimedOut, vs);
      } else if state == Active {
        if echo {
          echo := false;
          DoSetState(Error, false);
          r, effects := DoInitiateClose(RequestTimedOut, vs);
        } else {
          echo := true;
          DoSetTimeout();
          return Ok, NONE.(spawn := Echo);
        }
      } else if state == Closing {
        r, effects := DoCleanUp();
      } else {
        return InvalidOperation, NONE;
      }
    }
  }

  // ---------------------------------------------------------------- runs of one link

  datatype Event =
    | DoStart
    | DoKeyingDone(peerPresent: bool, sa: bool)
    | DoHelloRequest(address: Option<Address>, isVs: bool, vsconn: bool)
    | DoHelloResponse(success: bool, address: Option<Address>, vsBootstrap: bool, tunOk: bool, vs: bool)
    | DoKeepAlive
    | DoTerminateLink
    | DoTerminateAck
    | DoDisconnectAck
    | DoClose(reason: TerminateReason, vs: bool)
    | DoCloseDone
    | DoResetLink
    | FireTimer(clock: Clock, vs: bool)

  /** A timer fires at most once; only one that was started can. */
  predicate Enabled(l: Link, e: Event) {
    e.FireTimer? ==> e.clock in l.history.timers
  }

  function Apply(l: Link, e: Event): Step {
    match e
    case DoStart => Start(l)
    case DoKeyingDone(peerPresent, sa) => KeyingDone(l, peerPresent, sa)
    case DoHelloRequest(address, isVs, vsconn) => HelloRequest(l, address, isVs, vsconn)
    case DoHelloResponse(success, address, vsBootstrap, tunOk, vs) =>
      HelloResponse(l, success, address, vsBootstrap, tunOk, vs)
    case DoKeepAlive => KeepAliveResponse(l)
    case DoTerminateLink => TerminateLink(l)
    case DoTerminateAck => TerminateAck(l)
    case DoDisconnectAck => DisconnectAck(l)
    case DoClose(reason, vs) => InitiateClose(l, reason, vs)
    case DoCloseDone => CloseDone(l)
    case DoResetLink => Reset(l)
    case FireTimer(clock, vs) =>
      Timeout(l.(history := l.history.(timers := l.history.timers - multiset{clock})), clock, vs)
  }

  function Next(l: Link, e: Event): Link {
    Apply(l, e).0
  }

  function Run(l: Link, events: seq<Event>): Link {
    Runs.Run(Next, l, events)
  }

  predicate Legal(l: Link, events: seq<Event>) {
    Runs.Legal(Enabled, Next, l, events)
  }

  /** The only way to Active since the link was last inactive: Keying, then Helloing with a security association. */
  ghost predicate PathInv(l: Link) {
    var visits := l.history.visits;
    && (l.state == Inactive ==> visits == [])
    && (l.state == Keying ==> visits == [Visit(Keying, false)])
    && (l.state == Helloing ==> visits == [Visit(Keying, false), Visit(Helloing, true)])
    && (l.state == Active ==> visits == [Visit(Keying, false), Visit(Helloing, true), Visit(Active, false)])
  }

  /** Timers not from the future; with the clock not yet wrapped, at most one is current. */
  ghost predicate TimerInv(l: Link) {
    && (l.history.ticks < CLOCK_MOD ==>
          && l.clock == l.history.ticks
          && (forall t :: t in l.history.timers ==> t <= l.history.ticks)
          && l.history.timers[l.clock] <= 1)
  }

  ghost predicate Inv(l: Link) {
    && (l.ready <==> l.up && l.state == Active)
    && (l.state == Active ==> l.up && (l.aaa.Some? || l.history.bootstrap))
    && (l.state == Keying || l.state == Helloing ==> l.up)
    && PathInv(l) && TimerInv(l)
  }

  lemma TickKeepsTimers(l: Link)
    requires TimerInv(l)
    ensures TimerInv(CancelTimeout(l)) && TimerInv(SetTimeout(l))
    ensures CancelTimeout(l).history.ticks < CLOCK_MOD ==>
              CancelTimeout(l).clock !in CancelTimeout(l).history.timers
  {
  }

  lemma SetStateKeepsTimers(l: Link, s: State, sa: bool)
    requires TimerInv(l)
    ensures TimerInv(SetState(l, s, sa)) && TimerInv(SetTimeout(SetState(l, s, sa)))
  {
    var m := l.(state := s, ready := l.up && s == Active,
                history := l.history.(
                  visits := if s == Inactive then [] else l.history.visits + [Visit(s, sa)], cleaned := false));
    TickKeepsTimers(m);
    TickKeepsTimers(CancelTimeout(m));
  }

  lemma ContinueCloseKeepsInv(l: Link)
    requires TimerInv(l)
    ensures Inv(ContinueClose(l).0)
  {
    SetStateKeepsTimers(l, Closing, false);
  }

  lemma CloseKeepsInv(l: Link, reason: TerminateReason, vs: bool)
    requires TimerInv(l)
    ensures Inv(InitiateClose(l, reason, vs).0)
  {
    var m := l.(shuttingDown := l.shuttingDown || reason == Shutdown);
    if l.kind == NodeToAdapter && vs {
      SetStateKeepsTimers(m, Disconnecting(reason), false);
    } else {
      ContinueCloseKeepsInv(m);
    }
  }

  lemma RunActiveKeepsInv(l: Link, aaa: Option<Address>, bootstrap: bool)
    requires Inv(l) && l.state == Helloing && (aaa.Some? || bootstrap)
    ensures Inv(RunActive(l.(aaa := aaa, history := l.history.(bootstrap := bootstrap))))
  {
    var m := l.(aaa := aaa, history := l.history.(bootstrap := bootstrap));
    SetStateKeepsTimers(m, Active, false);
    TickKeepsTimers(SetState(m, Active, false).(echo := false));
  }

  lemma StartKeepsInv(l: Link)
    requires Inv(l)
    ensures Inv(Start(l).0)
  {
    if l.state == Inactive {
      SetStateKeepsTimers(l.(up := true), Keying, false);
      SetStateKeepsTimers(SetState(l.(up := true), Keying, false), Error, false);
    }
  }

  lemma TimeoutKeepsInv(l: Link, clock: Clock, vs: bool)
    requires Inv(l)
    ensures Inv(Timeout(l, clock, vs).0)
  {
    if clock == l.clock {
      if l.kind == AdapterToNode && l.state == Helloing {
        SetStateKeepsTimers(l, Error, false);
        CloseKeepsInv(SetState(l, Error, false), RequestTimedOut, vs);
      } else if l.state == Active && l.echo {
        SetStateKeepsTimers(l.(echo := false), Error, false);
        CloseKeepsInv(SetState(l.(echo := false), Error, false), RequestTimedOut, vs);
      } else if l.state == Active {
        TickKeepsTimers(l.(echo := true));
      }
    }
  }

  lemma KeyingDoneKeepsInv(l: Link, peerPresent: bool, sa: bool)
    requires Inv(l)
    ensures Inv(KeyingDone(l, peerPresent, sa).0)
  {
    SetStateKeepsTimers(l, Helloing, sa);
  }

  lemma HelloRequestKeepsInv(l: Link, address: Option<Address>, isVs: bool, vsconn: bool)
    requires Inv(l)
    ensures Inv(HelloRequest(l, address, isVs, vsconn).0)
  {
    CloseKeepsInv(l, Other, isVs && vsconn);
    if AwaitsHelloRequest(l) && (address.Some? || isVs) {
      RunActiveKeepsInv(l, if address.Some? then address else l.aaa, isVs);
    }
  }

  lemma HelloResponseKeepsInv(
    l: Link, success: bool, address: Option<Address>, vsBootstrap: bool, tunOk: bool, vs: bool)
    requires Inv(l)
    ensures Inv(HelloResponse(l, success, address, vsBootstrap, tunOk, vs).0)
  {
    CloseKeepsInv(l, Other, vs);
    if l.state == Helloing && (address.Some? || vsBootstrap) {
      RunActiveKeepsInv(l, address, vsBootstrap);
    }
  }

  lemma TeardownKeepsInv(l: Link)
    requires Inv(l)
    ensures Inv(TerminateLink(l).0) && Inv(Reset(l).0) && Inv(TerminateAck(l).0) && Inv(CloseDone(l).0)
  {
    SetStateKeepsTimers(l, Closing, false);
    SetStateKeepsTimers(l, Resetting, false);
    SetStateKeepsTimers(l, Inactive, false);
    TickKeepsTimers(l);
  }

  lemma KeepAliveKeepsInv(l: Link)
    requires Inv(l)
    ensures Inv(KeepAliveResponse(l).0)
  {
    TickKeepsTimers(l.(echo := false));
  }

  lemma DisconnectAckKeepsInv(l: Link)
    requires Inv(l)
    ensures Inv(DisconnectAck(l).0)
  {
    ContinueCloseKeepsInv(l);
  }

  lemma FiringKeepsInv(l: Link, clock: Clock)
    requires Inv(l)
    ensures Inv(l.(history := l.history.(timers := l.history.timers - multiset{clock})))
  {
  }

  lemma NextKeepsInv(l: Link, e: Event)
    requires Inv(l) && Enabled(l, e)
    ensures Inv(Next(l, e))
  {
    match e
    case DoStart => StartKeepsInv(l);
    case DoKeyingDone(peerPresent, sa) => KeyingDoneKeepsInv(l, peerPresent, sa);
    case DoHelloRequest(address, isVs, vsconn) => HelloRequestKeepsInv(l, address, isVs, vsconn);
    case DoHelloResponse(success, address, vsBootstrap, tunOk, vs) =>
      HelloResponseKeepsInv(l, success, address, vsBootstrap, tunOk, vs);
    case DoKeepAlive => KeepAliveKeepsInv(l);
    case DoTerminateLink => TeardownKeepsInv(l);
    case DoTerminateAck => TeardownKeepsInv(l);
    case DoDisconnectAck => DisconnectAckKeepsInv(l);
    case DoClose(reason, vs) => CloseKeepsInv(l, reason, vs);
    case DoCloseDone => TeardownKeepsInv(l);
    case DoResetLink => TeardownKeepsInv(l);
    case FireTimer(clock, vs) =>
      FiringKeepsInv(l, clock);
      TimeoutKeepsInv(l.(history := l.history.(timers := l.history.timers - multiset{clock})), clock, vs);
  }

  /**
  On every run, whatever the order of events: a link is ready exactly when it is up and active, it
  became active through keying with an established association and then the hello exchange, and
  while active it holds an AAA address or is the visa service's bootstrap link.
  */
  lemma EveryRun(kind: LinkType, events: seq<Event>)
    requires Legal(NewLink(kind), events)
    ensures Inv(Run(NewLink(kind), events))
  {
    RunKeepsInv(NewLink(kind), events);
  }

  lemma RunKeepsInv(l: Link, events: seq<Event>)
    requires Inv(l) && Legal(l, events)
    ensures Inv(Run(l, events))
  {
    forall t, e | Inv(t) && Enabled(t, e)
      ensures Inv(Next(t, e))
    {
      NextKeepsInv(t, e);
    }
    Runs.Invariant(Enabled, Next, Inv, l, events);
  }

  function Ticks(l: Link): int {
    l.history.ticks
  }

  /** No state was entered, not even the current one again, unless the clock advanced. */
  predicate Advances(l: Link, m: Link) {
    Ticks(m) >= Ticks(l) && (Ticks(m) == Ticks(l) ==> m.state == l.state && m.history.visits == l.history.visits)
  }

  lemma ClosingAdvances(l: Link, reason: TerminateReason, vs: bool)
    ensures Ticks(InitiateClose(l, reason, vs).0) > Ticks(l) && Ticks(ContinueClose(l).0) > Ticks(l)
  {
  }

  lemma HelloRequestAdvances(l: Link, address: Option<Address>, isVs: bool, vsconn: bool)
    ensures Advances(l, HelloRequest(l, address, isVs, vsconn).0)
  {
    ClosingAdvances(l, Other, isVs && vsconn);
  }

  lemma HelloResponseAdvances(
    l: Link, success: bool, address: Option<Address>, vsBootstrap: bool, tunOk: bool, vs: bool)
    ensures Advances(l, HelloResponse(l, success, address, vsBootstrap, tunOk, vs).0)
  {
    ClosingAdvances(l, Other, vs);
  }

  lemma TimeoutAdvances(l: Link, clock: Clock, vs: bool)
    ensures Advances(l, Timeout(l, clock, vs).0)
  {
    if clock == l.clock {
      if l.kind == AdapterToNode && l.state == Helloing {
        ClosingAdvances(SetState(l, Error, false), RequestTimedOut, vs);
      } else if l.state == Active && l.echo {
        ClosingAdvances(SetState(l.(echo := false), Error, false), RequestTimedOut, vs);
      }
    }
  }

  /** Entering a state advances the clock, so it outdates every timer started before. */
  lemma BringUpAdvances(l: Link, peerPresent: bool, sa: bool)
    ensures Advances(l, Start(l).0) && Advances(l, KeyingDone(l, peerPresent, sa).0)
    ensures Advances(l, KeepAliveResponse(l).0)
  {
  }

  lemma TeardownAdvances(l: Link)
    ensures Advances(l, TerminateLink(l).0) && Advances(l, TerminateAck(l).0)
    ensures Advances(l, CloseDone(l).0) && Advances(l, Reset(l).0)
  {
  }

  lemma DisconnectAckAdvances(l: Link)
    ensures Advances(l, DisconnectAck(l).0)
  {
    ClosingAdvances(l, Other, false);
  }

  lemma FiringAdvances(l: Link, clock: Clock, vs: bool)
    ensures Advances(l, Next(l, FireTimer(clock, vs)))
  {
    TimeoutAdvances(l.(history := l.history.(timers := l.history.timers - multiset{clock})), clock, vs);
  }

  lemma ChangesAdvanceClock(l: Link, e: Event)
    ensures Advances(l, Next(l, e))
  {
    match e
    case DoStart => BringUpAdvances(l, false, false);
    case DoKeyingDone(peerPresent, sa) => BringUpAdvances(l, peerPresent, sa);
    case DoHelloRequest(address, isVs, vsconn) => HelloRequestAdvances(l, address, isVs, vsconn);
    case DoHelloResponse(success, address, vsBootstrap, tunOk, vs) =>
      HelloResponseAdvances(l, success, address, vsBootstrap, tunOk, vs);
    case DoKeepAlive => BringUpAdvances(l, false, false);
    case DoTerminateLink => TeardownAdvances(l);
    case DoTerminateAck => TeardownAdvances(l);
    case DoDisconnectAck => DisconnectAckAdvances(l);
    case DoClose(reason, vs) => ClosingAdvances(l, reason, vs);
    case DoCloseDone => TeardownAdvances(l);
    case DoResetLink => TeardownAdvances(l);
    case FireTimer(clock, vs) => FiringAdvances(l, clock, vs);
  }

  lemma RunNeverTurnsClockBack(l: Link, events: seq<Event>)
    requires Inv(l) && Legal(l, events)
    ensures Ticks(Run(l, events)) >= Ticks(l)
  {
    forall t, e | Inv(t) && Enabled(t, e)
      ensures Inv(Next(t, e)) && Ticks(Next(t, e)) >= Ticks(t)
    {
      NextKeepsInv(t, e);
      ChangesAdvanceClock(t, e);
    }
    Runs.Monotone(Enabled, Next, Inv, Ticks, l, events);
  }

  /**
  A timer started before some step that advanced the clock (a state change, a cancel or a new
  timer) does nothing when it fires, however much later, as long as the clock has not wrapped.
  */
  lemma StaleTimerIsInert(l: Link, change: Event, events: seq<Event>, t: Clock, vs: bool)
    requires Inv(l) && Enabled(l, change) && t in l.history.timers
    requires Ticks(Next(l, change)) > Ticks(l) && Legal(Next(l, change), events)
    requires Ticks(Run(Next(l, change), events)) < CLOCK_MOD
    ensures var later := Run(Next(l, change), events);
            Timeout(later, t, vs) == (later, Ok, NONE)
  {
    NextKeepsInv(l, change);
    RunNeverTurnsClockBack(Next(l, change), events);
    RunKeepsInv(Next(l, change), events);
  }
}

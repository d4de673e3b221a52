/**
Actor authorization on the adapter side of its dock link (adapter/ph/src/actor_auth.rs): the worker
that asks, proves and acquires, and the replies delivered to it.

The worker's loop is cut at its awaits, and each piece is one atomic step. Opening a transaction,
the network, the authentication service and the TUN device are inputs of the steps that use them.
*/
module ActorClient {
  import opened Bytes
  import opened Classifier
  import opened ActorAuth

  type Channel = nat

  datatype Status = Success | Rejected | Retryable | Unlisted

  datatype Reply = Offer(status: Status) | Grant(status: Status, addresses: seq<Address>)

  /** Where the worker waits, and what its one-shot channel holds. */
  datatype Phase =
    | Opening
    | AwaitingOffer(txn: Txn, channel: Channel, inbox: Option<Reply>)
    | Proving(txn: Txn)
    | AwaitingGrant(txn: Txn, channel: Channel, inbox: Option<Reply>)
    | Abandoning(txn: Txn, denied: bool)
    | Sleeping
    | Finished

  /**
  The authorization object with its worker and the worker's backoff in milliseconds; the
  adapter-wide rejection latch; the addresses this object put on the TUN device and those of them it
  failed to take off again; how many channels it made and requests it sent; and whether a worker was
  ever handed something it cannot use.
  */
  datatype Client = Client(
    state: ActorAuth.State, txn: Option<Txn>, reply: Option<Channel>, worker: Option<Phase>, backoff: nat,
    installed: Option<Address>, addresses: seq<Address>,
    rejected: bool, tun: set<Address>, stuck: set<Address>, channels: nat, requests: nat, misrouted: bool)

  const NEW_CLIENT :=
    Client(WaitingForLink, None, None, None, RETRY_INITIAL, None, [], false, {}, {}, 0, 0, false)

  // ---------------------------------------------------------------- backing off

  const RETRY_INITIAL: nat := 1_000

  const RETRY_MAX: nat := 30_000

  function Min(a: nat, b: nat): nat {
    if a <= b then a else b
  }

  /** How long to sleep, and the next backoff. */
  function RetryDelay(backoff: nat, random: u16): (nat, nat) {
    var b := Min(backoff, RETRY_MAX);
    (Min(b + random % 250, RETRY_MAX), Min(2 * b, RETRY_MAX))
  }

  function Power(n: nat): nat {
    if n == 0 then 1 else 2 * Power(n - 1)
  }

  /** The backoff in force after `n` retries. */
  function Backoff(randoms: seq<u16>): nat {
    if randoms == [] then RETRY_INITIAL else RetryDelay(Backoff(randoms[..|randoms| - 1]), randoms[|randoms| - 1]).1
  }

  /** Whatever the jitter, the backoff doubles up to its ceiling, and every sleep lies between the two. */
  lemma {:induction false} BackoffDoubles(randoms: seq<u16>, random: u16)
    ensures Backoff(randoms) == Min(RETRY_INITIAL * Power(|randoms|), RETRY_MAX)
    ensures Backoff(randoms) <= RetryDelay(Backoff(randoms), random).0 <= RETRY_MAX
  {
    if randoms != [] {
      BackoffDoubles(randoms[..|randoms| - 1], random);
    }
  }

  // ---------------------------------------------------------------- steps as values

  predicate Running(c: Client) {
    c.worker.Some? && c.worker.value != Finished
  }

  function LinkReady(c: Client): Client {
    if Running(c) then c
    else if c.rejected then c.(state := RejectedActor)
    else c.(worker := Some(Opening), backoff := RETRY_INITIAL)
  }

  /** Is the worker still waiting at the far end of this channel? */
  predicate Listening(c: Client, channel: Channel) {
    c.worker.Some? &&
    match c.worker.value
    case AwaitingOffer(_, ch, inbox) => ch == channel && inbox.None?
    case AwaitingGrant(_, ch, inbox) => ch == channel && inbox.None?
    case _ => false
  }

  function Deliver(c: Client, txn: Txn, state: ActorAuth.State, reply: Reply): (Client, Handled) {
    if c.state != state || c.txn != Some(txn) || c.reply.None? then (c, UnknownTransaction)
    else
      var taken := c.(reply := None);
      if !Listening(c, c.reply.value) then (taken, UnknownTransaction)
      else
        match c.worker.value
        case AwaitingOffer(t, ch, _) => (taken.(worker := Some(AwaitingOffer(t, ch, Some(reply)))), Ok)
        case AwaitingGrant(t, ch, _) => (taken.(worker := Some(AwaitingGrant(t, ch, Some(reply)))), Ok)
  }

  function ReceiveOffer(c: Client, txn: Txn, status: Status): (Client, Handled) {
    Deliver(c, txn, RequestingAuthentication, Offer(status))
  }

  predicate WellFormed(status: Status, addresses: seq<Address>) {
    if status == Success then |addresses| == 1 else addresses == []
  }

  function ReceiveGrant(c: Client, txn: Txn, status: Status, addresses: seq<Address>): (Client, Handled) {
    if !WellFormed(status, addresses) then (c, BadStructure)
    else Deliver(c, txn, AcquiringAddress, Grant(status, addresses))
  }

  /** The top of the loop, once a transaction is open; `peer` is whether the link still has its peer. */
  function Opened(c: Client, txn: Txn, peer: bool): Client {
    if !peer then c.(worker := Some(Finished))
    else
      c.(state := RequestingAuthentication, txn := Some(txn), reply := Some(c.channels), channels := c.channels + 1,
         requests := c.requests + 1, worker := Some(AwaitingOffer(txn, c.channels, None)))
  }

  /** The end of an attempt that was not granted. */
  function Concluded(c: Client, status: Status): Client {
    var d := c.(txn := None, reply := None);
    if status == Status.Rejected then d.(rejected := true, state := RejectedActor, worker := Some(Finished))
    else d.(state := RetryBackoff, worker := Some(Sleeping), backoff := RetryDelay(c.backoff, 0).1)
  }

  function TakeOffer(c: Client, txn: Txn, reply: Reply): Client {
    match reply
    case Offer(status) =>
      if status == Success then c.(state := Authenticating, worker := Some(Proving(txn))) else Concluded(c, status)
    case Grant(_, _) => c.(worker := Some(Finished), misrouted := true)
  }

  datatype Evidence = Blob | Denied | Unavailable

  function Proved(c: Client, txn: Txn, evidence: Evidence): Client {
    if evidence == Blob then
      c.(state := AcquiringAddress, txn := Some(txn), reply := Some(c.channels), channels := c.channels + 1,
         requests := c.requests + 1, worker := Some(AwaitingGrant(txn, c.channels, None)))
    else
      c.(rejected := c.rejected || evidence == Denied, state := AbandoningAuthentication,
         worker := Some(Abandoning(txn, evidence == Denied)))
  }

  /** `foreign`: the address is on the device for another reason. */
  function Install(c: Client, address: Address, foreign: bool, installs: bool): Client {
    var d := c.(txn := None, worker := Some(Finished));
    if !installs then d
    else
      var owned := !foreign && address !in c.tun;
      d.(installed := if owned then Some(address) else None, tun := if owned then c.tun + {address} else c.tun,
         state := Authorized, addresses := [address])
  }

  /** A granted address that cannot be installed raises an error on the link. */
  predicate RaisesLinkError(reply: Reply, installs: bool) {
    reply.Grant? && reply.status == Success && reply.addresses != [] && !installs
  }

  function TakeGrant(c: Client, reply: Reply, foreign: bool, installs: bool): Client {
    match reply
    case Grant(status, addresses) =>
      if status != Success then Concluded(c, status)
      else if addresses == [] then c.(worker := Some(Finished), misrouted := true)
      else Install(c, addresses[0], foreign, installs)
    case Offer(_) => c.(worker := Some(Finished), misrouted := true)
  }

  function Abandoned(c: Client, denied: bool, acked: bool): Client {
    if !acked then c.(worker := Some(Finished)) else Concluded(c, if denied then Status.Rejected else Retryable)
  }

  /** `clears`: the device gives the address up. */
  function TornDown(c: Client, clears: bool): Client {
    var d := c.(worker := None, reply := None, txn := None, state := WaitingForLink, installed := None, addresses := []);
    if c.installed.None? then d
    else if clears then d.(tun := c.tun - {c.installed.value})
    else d.(stuck := c.stuck + {c.installed.value})
  }

  // ---------------------------------------------------------------- any order of steps

  /** What can happen to the object while its link is up: replies arriving, and the worker resuming. */
  datatype ClientAction =
    | OfferArrives(txn: Txn, status: Status)
    | GrantArrives(txn: Txn, status: Status, addresses: seq<Address>)
    | TxnOpens(txn: Txn, peer: bool)
    | SendFails
    | OfferTaken
    | EvidenceComes(evidence: Evidence)
    | GrantTaken(foreign: bool, installs: bool)
    | AbandonmentEnds(acked: bool)
    | SleepEnds

  predicate ClientEnabled(c: Client, a: ClientAction) {
    a.OfferArrives? || a.GrantArrives? || (c.worker.Some? &&
    var phase := c.worker.value;
    match a
    case TxnOpens(_, _) => phase.Opening?
    case SendFails => phase.AwaitingOffer? || phase.AwaitingGrant?
    case OfferTaken => phase.AwaitingOffer? && phase.inbox.Some?
    case EvidenceComes(_) => phase.Proving?
    case GrantTaken(_, _) => phase.AwaitingGrant? && phase.inbox.Some?
    case AbandonmentEnds(_) => phase.Abandoning?
    case SleepEnds => phase.Sleeping?
    case _ => false)
  }

  function ClientStep(c: Client, a: ClientAction): Client
    requires ClientEnabled(c, a)
  {
    match a
    case OfferArrives(txn, status) => ReceiveOffer(c, txn, status).0
    case GrantArrives(txn, status, addresses) => ReceiveGrant(c, txn, status, addresses).0
    case TxnOpens(txn, peer) => Opened(c, txn, peer)
    case SendFails => c.(worker := Some(Finished))
    case OfferTaken => TakeOffer(c, c.worker.value.txn, c.worker.value.inbox.value)
    case EvidenceComes(evidence) => Proved(c, c.worker.value.txn, evidence)
    case GrantTaken(foreign, installs) => TakeGrant(c, c.worker.value.inbox.value, foreign, installs)
    case AbandonmentEnds(acked) => Abandoned(c, c.worker.value.denied, acked)
    case SleepEnds => c.(worker := Some(Opening))
  }

  /** The step ends in an error event on the link. */
  predicate EndsLink(c: Client, a: ClientAction)
    requires ClientEnabled(c, a)
  {
    a.GrantTaken? && RaisesLinkError(c.worker.value.inbox.value, a.installs)
  }

  // ---------------------------------------------------------------- what every step keeps

  /** The channel's two ends agree: what is sent on it is what the worker waits for. */
  predicate Awaits(c: Client, state: ActorAuth.State, txn: Txn, channel: Channel, inbox: Option<Reply>) {
    && c.state == state && c.txn == Some(txn)
    && c.reply == (if inbox.None? then Some(channel) else None)
  }

  predicate Routed(c: Client) {
    if c.worker.None? then
      c.reply.None? && c.txn.None? && (c.state == WaitingForLink || c.state == RejectedActor)
    else
      match c.worker.value
      case Opening => c.reply.None? && c.txn.None? && (c.state == WaitingForLink || c.state == RetryBackoff)
      case AwaitingOffer(txn, channel, inbox) =>
        Awaits(c, RequestingAuthentication, txn, channel, inbox) && (inbox.Some? ==> inbox.value.Offer?)
      case Proving(txn) => c.state == Authenticating && c.txn == Some(txn) && c.reply.None?
      case AwaitingGrant(txn, channel, inbox) =>
        && Awaits(c, AcquiringAddress, txn, channel, inbox)
        && (inbox.Some? ==> inbox.value.Grant? && WellFormed(inbox.value.status, inbox.value.addresses))
      case Abandoning(txn, _) => c.state == AbandoningAuthentication && c.txn == Some(txn) && c.reply.None?
      case Sleeping => c.reply.None? && c.txn.None? && c.state == RetryBackoff
      case Finished => true
  }

  /** Once the latch is set the worker has nothing left to do but give its transaction back. */
  predicate Latched(c: Client) {
    && (c.worker.Some? && c.worker.value.Abandoning? && c.worker.value.denied ==> c.rejected)
    && (c.rejected ==>
          && (c.worker.None? || c.worker.value.Finished? || (c.worker.value.Abandoning? && c.worker.value.denied))
          && c.addresses == [])
    && (c.state == RejectedActor ==> c.rejected)
  }

  /** The device holds the one address the object remembers, and those it could not take off again. */
  predicate TunAccounted(c: Client) {
    && c.tun == c.stuck + (if c.installed.Some? then {c.installed.value} else {})
    && (c.installed.Some? ==> c.installed.value !in c.stuck && c.addresses == [c.installed.value])
  }

  predicate ClientInv(c: Client) {
    && !c.misrouted && Routed(c) && Latched(c) && TunAccounted(c)
    && (if c.state == Authorized then |c.addresses| == 1 else c.addresses == [])
    && RETRY_INITIAL <= c.backoff <= RETRY_MAX
  }

  lemma DownKeepsInv(c: Client, clears: bool)
    requires ClientInv(c)
    ensures ClientInv(TornDown(c, clears))
  {
  }

  lemma DeliverKeepsInv(c: Client, txn: Txn, status: Status, addresses: seq<Address>)
    requires ClientInv(c)
    ensures ClientInv(ReceiveOffer(c, txn, status).0) && ClientInv(ReceiveGrant(c, txn, status, addresses).0)
  {
  }

  lemma ConcludeKeepsInv(c: Client, status: Status)
    requires ClientInv(c) && c.addresses == []
    requires c.rejected ==> status == Status.Rejected
    ensures ClientInv(Concluded(c, status))
  {
  }

  lemma ClientStepKeepsInv(c: Client, a: ClientAction)
    requires ClientInv(c) && ClientEnabled(c, a)
    ensures ClientInv(ClientStep(c, a)) && (c.worker.None? ==> ClientStep(c, a) == c)
    ensures c.rejected ==> ClientStep(c, a).rejected && ClientStep(c, a).requests == c.requests
  {
    match a
    case OfferArrives(txn, status) => DeliverKeepsInv(c, txn, status, []);
    case GrantArrives(txn, status, addresses) => DeliverKeepsInv(c, txn, status, addresses);
    case OfferTaken => ConcludeKeepsInv(c, c.worker.value.inbox.value.status);
    case GrantTaken(_, _) => ConcludeKeepsInv(c, c.worker.value.inbox.value.status);
    case AbandonmentEnds(_) => ConcludeKeepsInv(c, if c.worker.value.denied then Status.Rejected else Retryable);
    case _ =>
  }

  // ---------------------------------------------------------------- how an authorization gets done

  /** A worker starts exactly when none is running and no rejection is latched, with the first backoff. */
  lemma ReadyStarts(c: Client)
    ensures LinkReady(c).worker == Some(Opening) && LinkReady(c).backoff == Backoff([])
       <==> (!Running(c) && !c.rejected) || (c.worker == Some(Opening) && c.backoff == Backoff([]))
    ensures Running(c) ==> LinkReady(c) == c
    ensures !Running(c) && c.rejected ==> LinkReady(c) == c.(state := RejectedActor)
  {
  }

  /** A reply is taken exactly by the wait it is for, and only once. */
  lemma DeliveredOnce(c: Client, txn: Txn, status: Status, addresses: seq<Address>)
    ensures var (d, r) := ReceiveOffer(c, txn, status);
            && (r == Ok <==> && c.state == RequestingAuthentication && c.txn == Some(txn) && c.reply.Some?
                             && Listening(c, c.reply.value))
            && ReceiveOffer(d, txn, status).1 == UnknownTransaction
    ensures var (d, r) := ReceiveGrant(c, txn, status, addresses);
            && (r == Ok <==> && WellFormed(status, addresses) && c.state == AcquiringAddress && c.txn == Some(txn)
                             && c.reply.Some? && Listening(c, c.reply.value))
            && (r == BadStructure <==> !WellFormed(status, addresses)) && (r == BadStructure ==> d == c)
            && (WellFormed(status, addresses) ==> ReceiveGrant(d, txn, status, addresses).1 == UnknownTransaction)
  {
  }

  /** What the worker does next: only success goes on, only a rejection is latched, the rest is retried. */
  lemma StatusDecides(c: Client, txn: Txn, status: Status)
    ensures var d := TakeOffer(c, txn, Offer(status));
            && (status == Success <==> d.worker == Some(Proving(txn)))
            && (status == Status.Rejected <==> d.worker == Some(Finished))
            && (status != Success && status != Status.Rejected <==> d.worker == Some(Sleeping))
            && d.rejected == (c.rejected || status == Status.Rejected) && d.requests == c.requests
            && d.addresses == c.addresses
    ensures status != Success ==>
              forall foreign, installs :: TakeGrant(c, Grant(status, []), foreign, installs) == TakeOffer(c, txn, Offer(status))
  {
  }

  /** Evidence, and what becomes of an attempt without any. */
  lemma EvidenceDecides(c: Client, txn: Txn, evidence: Evidence, acked: bool)
    ensures var d := Proved(c, txn, evidence);
            && (evidence == Blob <==> d.worker == Some(AwaitingGrant(txn, c.channels, None)))
            && d.rejected == (c.rejected || evidence == Denied)
            && d.requests == c.requests + (if evidence == Blob then 1 else 0)
            && (evidence != Blob ==>
                  && d.worker == Some(Abandoning(txn, evidence == Denied))
                  && var e := Abandoned(d, evidence == Denied, acked);
                     e.worker == Some(if acked && evidence != Denied then Sleeping else Finished)
                     && (acked && evidence == Denied ==> e.state == RejectedActor))
  {
  }

  /** The client's own backoff: one retry further exactly when it goes to sleep. */
  lemma SleepsBackOff(c: Client, a: ClientAction, randoms: seq<u16>, random: u16)
    requires ClientEnabled(c, a) && c.backoff == Backoff(randoms)
    ensures var d := ClientStep(c, a);
            d.backoff == if d.worker == Some(Sleeping) && c.worker != Some(Sleeping) then Backoff(randoms + [random])
                         else Backoff(randoms)
  {
    assert (randoms + [random])[..|randoms|] == randoms;
  }

  /** An undisturbed attempt: two requests, and the granted address is installed and held. */
  lemma AttemptAuthorizes(c: Client, txn: Txn, address: Address)
    requires c.worker == Some(Opening) && ClientInv(c) && !c.rejected
    ensures var asked := Opened(c, txn, true);
            var (offered, r0) := ReceiveOffer(asked, txn, Success);
            r0 == Ok && offered.worker == Some(AwaitingOffer(txn, c.channels, Some(Offer(Success)))) &&
            var proving := TakeOffer(offered, txn, Offer(Success));
            var acquiring := Proved(proving, txn, Blob);
            var (granted, r1) := ReceiveGrant(acquiring, txn, Success, [address]);
            r1 == Ok && granted.worker == Some(AwaitingGrant(txn, c.channels + 1, Some(Grant(Success, [address])))) &&
            var done := TakeGrant(granted, Grant(Success, [address]), false, true);
            && done.state == Authorized && done.addresses == [address] && done.worker == Some(Finished)
            && done.requests == c.requests + 2 && done.tun == c.tun + {address}
            && (address !in c.tun ==> done.installed == Some(address))
  {
  }

  /** Losing the link takes off the device exactly what this object put there, if the device lets it. */
  lemma DownTakesOff(c: Client)
    requires ClientInv(c)
    ensures TornDown(c, true).tun == c.stuck && TornDown(c, true).stuck == c.stuck
    ensures TornDown(c, false).tun == c.tun
  {
  }

  // ---------------------------------------------------------------- the object

  class AdapterAuthorization {
    var state: ActorAuth.State
    var txn: Option<Txn>
    var reply: Option<Channel>
    var worker: Option<Phase>
    var backoff: nat
    var installed: Option<Address>
    var addresses: seq<Address>
    var rejected: bool
    ghost var tun: set<Address>
    ghost var stuck: set<Address>
    var channels: nat
    ghost var requests: nat
    ghost var misrouted: bool

    constructor ()
      ensures Value() == NEW_CLIENT
    {
      state, txn, reply, worker, backoff := WaitingForLink, None, None, None, RETRY_INITIAL;
      installed, addresses, rejected, channels := None, [], false, 0;
      tun, stuck, requests, misrouted := {}, {}, 0, false;
    }

    ghost function Value(): Client
      reads this
    {
      Client(state, txn, reply, worker, backoff, installed, addresses, rejected, tun, stuck, channels, requests, misrouted)
    }

    method NotifyReady()
      modifies this
      ensures Value() == LinkReady(old(Value()))
    {
      if worker.Some? && worker.value != Finished {
        return;
      }
      if rejected {
        state := RejectedActor;
        return;
      }
      worker, backoff := Some(Opening), RETRY_INITIAL;
    }

    /** A new channel, whose sending end the object keeps. */
    method PrepareReply(t: Txn, s: ActorAuth.State) returns (channel: Channel)
      modifies this
      ensures Value() == old(Value()).(
                state := s, txn := Some(t), reply := Some(channel), channels := channel + 1, requests := old(requests) + 1)
      ensures channel == old(channels)
    {
      channel := channels;
      channels := channels + 1;
      state, txn, reply := s, Some(t), Some(channel);
      requests := requests + 1;
    }

    method DeliverReply(t: Txn, s: ActorAuth.State, message: Reply) returns (r: Handled)
      modifies this
      ensures (Value(), r) == Deliver(old(Value()), t, s, message)
    {
      if state != s || txn != Some(t) || reply.None? {
        return UnknownTransaction;
      }
      var channel := reply.value;
      reply := None;
      if worker.Some? {
        match worker.value {
          case AwaitingOffer(mine, ch, inbox) =>
            if ch == channel && inbox.None? {
              worker := Some(AwaitingOffer(mine, ch, Some(message)));
              return Ok;
            }
          case AwaitingGrant(mine, ch, inbox) =>
            if ch == channel && inbox.None? {
              worker := Some(AwaitingGrant(mine, ch, Some(message)));
              return Ok;
            }
          case _ =>
        }
      }
      return UnknownTransaction;
    }

    method DeliverGrant(t: Txn, status: Status, granted: seq<Address>) returns (r: Handled)
      modifies this
      ensures (Value(), r) == ReceiveGrant(old(Value()), t, status, granted)
    {
      if (status == Success && |granted| != 1) || (status != Success && granted != []) {
        return BadStructure;
      }
      r := DeliverReply(t, AcquiringAddress, Grant(status, granted));
    }

    method RunFromTop(t: Txn, peer: bool)
      modifies this
      ensures Value() == Opened(old(Value()), t, peer)
    {
      if !peer {
        worker := Some(Finished);
        return;
      }
      var channel := PrepareReply(t, RequestingAuthentication);
      worker := Some(AwaitingOffer(t, channel, None));
    }

    method Conclude(status: Status)
      modifies this
      ensures Value() == Concluded(old(Value()), status)
    {
      txn, reply := None, None;
      if status == Status.Rejected {
        rejected, state, worker := true, RejectedActor, Some(Finished);
        return;
      }
      state, worker, backoff := RetryBackoff, Some(Sleeping), RetryDelay(backoff, 0).1;
    }

    method RunFromOffer(t: Txn, message: Reply)
      modifies this
      ensures Value() == TakeOffer(old(Value()), t, message)
    {
      match message {
        case Grant(_, _) =>
          worker, misrouted := Some(Finished), true;
        case Offer(status) =>
          if status == Success {
            state, worker := Authenticating, Some(Proving(t));
          } else {
            Conclude(status);
          }
      }
    }

    method RunFromEvidence(t: Txn, evidence: Evidence)
      modifies this
      ensures Value() == Proved(old(Value()), t, evidence)
    {
      if evidence == Blob {
        var channel := PrepareReply(t, AcquiringAddress);
        worker := Some(AwaitingGrant(t, channel, None));
        return;
      }
      if evidence == Denied {
        rejected := true;
      }
      state, worker := AbandoningAuthentication, Some(Abandoning(t, evidence == Denied));
    }

    /** `present`: the device already has the address; `installs`: the device calls succeed. */
    method InstallAddress(address: Address, ghost foreign: bool, present: bool, installs: bool) returns (linkError: bool)
      requires present == (foreign || address in tun)
      modifies this
      ensures Value() == Install(old(Value()), address, foreign, installs) && linkError == !installs
    {
      txn, worker := None, Some(Finished);
      if !installs {
        return true;
      }
      if !present {
        tun := tun + {address};
      }
      installed := if present then None else Some(address);
      state, addresses := Authorized, [address];
      return false;
    }

    method RunFromGrant(message: Reply, ghost foreign: bool, present: bool, installs: bool) returns (linkError: bool)
      requires message.Grant? && message.addresses != [] ==> present == (foreign || message.addresses[0] in tun)
      modifies this
      ensures Value() == TakeGrant(old(Value()), message, foreign, installs)
      ensures linkError == RaisesLinkError(message, installs)
    {
      linkError := false;
      match message {
        case Offer(_) =>
          worker, misrouted := Some(Finished), true;
        case Grant(status, granted) =>
          if status != Success {
            Conclude(status);
          } else if granted == [] {
            worker, misrouted := Some(Finished), true;
          } else {
            linkError := InstallAddress(granted[0], foreign, present, installs);
          }
      }
    }

    method RunFromAbandonment(denied: bool, acked: bool)
      modifies this
      ensures Value() == Abandoned(old(Value()), denied, acked)
    {
      if !acked {
        worker := Some(Finished);
        return;
      }
      Conclude(if denied then Status.Rejected else Retryable);
    }

    method LinkDown(clears: bool)
      modifies this
      ensures Value() == TornDown(old(Value()), clears)
    {
      worker, reply, txn, state := None, None, None, WaitingForLink;
      if installed.Some? {
        if clears {
          tun := tun - {installed.value};
        } else {
          stuck := stuck + {installed.value};
        }
        installed := None;
      }
      addresses := [];
    }
  }

  // ---------------------------------------------------------------- rounds of the loop

  /** After its sleep the worker opens a new transaction with its own channel, and keeps the delay it reached. */
  lemma SleepOpensAnother(c: Client, txn: Txn)
    requires c.worker == Some(Sleeping)
    ensures var awake := ClientStep(c, SleepEnds);
            && awake == c.(worker := Some(Opening))
            && var d := ClientStep(awake, TxnOpens(txn, true));
               && d.worker == Some(AwaitingOffer(txn, c.channels, None)) && d.reply == Some(c.channels)
               && d.txn == Some(txn) && d.state == RequestingAuthentication
               && d.channels == c.channels + 1 && d.requests == c.requests + 1 && d.backoff == c.backoff
  {
  }

  /** A worker whose peer is gone, or whose message cannot be sent, ends there and requests nothing more. */
  lemma LostPeerEndsWorker(c: Client, a: ClientAction)
    requires ClientEnabled(c, a) && (a.SendFails? || (a.TxnOpens? && !a.peer))
    ensures ClientStep(c, a) == c.(worker := Some(Finished))
  {
  }
}

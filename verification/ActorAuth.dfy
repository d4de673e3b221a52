/**
Actor authorization on the node side of an adapter link (adapter/ph/src/actor_auth.rs), for a link
that is not the visa service's own. The adapter side is ActorClient.

The object's methods are atomic steps. Calls to the visa service run as tasks beside them, which
outlive the link session that started them.
*/
module ActorAuth {
  import opened Bytes
  import opened Classifier
  import Ledger
  import Runs

  type Txn = u16

  type Challenge = nat

  const GENERATIONS: nat := 0x1_0000_0000_0000_0000

  type Generation = x: int | 0 <= x < GENERATIONS

  function WrappingSucc(g: Generation): Generation {
    if g + 1 == GENERATIONS then 0 else g + 1
  }

  datatype State =
    | WaitingForLink
    | RequestingAuthentication
    | AwaitingEvidence
    | Authenticating
    | AcquiringAddress
    | Authorizing
    | AbandoningAuthentication
    | RetryBackoff
    | RejectedActor
    | Authorized

  datatype Handled = Ok | MessageNotPermitted | UnknownTransaction | LinkClosed | BadStructure

  // ---------------------------------------------------------------- the object as a value

  datatype Actor = Actor(
    state: State, generation: Generation, remoteTxn: Option<Txn>, challenge: Option<Challenge>, addresses: seq<Address>)

  const NEW_ACTOR := Actor(WaitingForLink, 0, None, None, [])

  function Start(a: Actor, txn: Txn, ready: bool, peer: bool, challenge: Challenge): (Actor, Handled) {
    if !ready then (a, MessageNotPermitted)
    else if !peer then (a, LinkClosed)
    else if a.remoteTxn.Some? || a.addresses != [] then (a, MessageNotPermitted)
    else (Actor(AwaitingEvidence, WrappingSucc(a.generation), Some(txn), Some(challenge), a.addresses), Ok)
  }

  function Abandon(a: Actor, txn: Txn, ready: bool): (Actor, Handled) {
    if !ready then (a, MessageNotPermitted)
    else if a.state != AwaitingEvidence || a.remoteTxn != Some(txn) then (a, UnknownTransaction)
    else (a.(remoteTxn := None, challenge := None, state := WaitingForLink), Ok)
  }

  /** The first half of `acquire_remote`: claim the transaction for one authorization. */
  function Claim(a: Actor, txn: Txn, ready: bool, peer: bool, tooMany: bool): (Actor, Handled) {
    if !peer then (a, LinkClosed)
    else if !ready then (a, MessageNotPermitted)
    else if tooMany then (a, BadStructure)
    else if a.state != AwaitingEvidence || a.remoteTxn != Some(txn) then (a, UnknownTransaction)
    else if a.challenge.None? then (a.(state := Authorizing), MessageNotPermitted)
    else (a.(state := Authorizing, challenge := None), Ok)
  }

  function Finish(a: Actor, generation: Generation, txn: Txn, success: bool, address: Option<Address>): (Actor, Handled) {
    if a.generation != generation || a.remoteTxn != Some(txn) then (a, UnknownTransaction)
    else
      (a.(remoteTxn := None, challenge := None, state := if success then Authorized else WaitingForLink,
          addresses := if address.Some? then [address.value] else a.addresses), Ok)
  }

  predicate Current(a: Actor, generation: Generation, txn: Txn) {
    a.generation == generation && a.remoteTxn == Some(txn) && a.state == Authorizing
  }

  /** Link loss: the actor afterwards, and the addresses `actor_disconnect` is issued for. */
  function Down(a: Actor): (Actor, seq<Address>) {
    (Actor(WaitingForLink, WrappingSucc(a.generation), None, None, []), a.addresses)
  }

  // ---------------------------------------------------------------- the object

  /** What a finished visa-service call does next. */
  datatype Completion = Nothing | Disconnect(address: Address) | DisconnectThenFinish(address: Address)

  datatype Verdict = Granted(address: Address, usable: bool) | Refused

  /** `authorization_result` up to its first await. */
  function Completed(a: Actor, generation: Generation, txn: Txn, verdict: Verdict): (Actor, Completion) {
    if verdict.Granted? then
      if !Current(a, generation, txn) then (a, Disconnect(verdict.address))
      else if !verdict.usable then (a, DisconnectThenFinish(verdict.address))
      else
        var (b, r) := Finish(a, generation, txn, true, Some(verdict.address));
        (b, if r == Ok then Nothing else Disconnect(verdict.address))
    else if Current(a, generation, txn) then (Finish(a, generation, txn, false, None).0, Nothing)
    else (a, Nothing)
  }

  class ActorAuthorization {
    var state: State
    var generation: Generation
    var remoteTxn: Option<Txn>
    var challenge: Option<Challenge>
    var addresses: seq<Address>

    constructor ()
      ensures Value() == NEW_ACTOR
    {
      state, generation, remoteTxn, challenge, addresses := WaitingForLink, 0, None, None, [];
    }

    function Value(): Actor
      reads this
    {
      Actor(state, generation, remoteTxn, challenge, addresses)
    }

    method StartRemote(txn: Txn, ready: bool, peer: bool, newChallenge: Challenge) returns (r: Handled)
      modifies this
      ensures (Value(), r) == Start(old(Value()), txn, ready, peer, newChallenge)
    {
      if !ready {
        return MessageNotPermitted;
      }
      if !peer {
        return LinkClosed;
      }
      if remoteTxn.Some? || addresses != [] {
        return MessageNotPermitted;
      }
      generation := WrappingSucc(generation);
      state, remoteTxn, challenge := AwaitingEvidence, Some(txn), Some(newChallenge);
      return Ok;
    }

    method AbandonRemote(txn: Txn, ready: bool) returns (r: Handled)
      modifies this
      ensures (Value(), r) == Abandon(old(Value()), txn, ready)
    {
      if !ready {
        return MessageNotPermitted;
      }
      if state != AwaitingEvidence || remoteTxn != Some(txn) {
        return UnknownTransaction;
      }
      remoteTxn, challenge, state := None, None, WaitingForLink;
      return Ok;
    }

    /** `spawned` is the generation of the visa-service call that was started, if one was. */
    method AcquireRemote(txn: Txn, ready: bool, peer: bool, tooMany: bool, evidenceOk: bool)
      returns (r: Handled, spawned: Option<Generation>)
      modifies this
      ensures var (claimed, h) := Claim(old(Value()), txn, ready, peer, tooMany);
              if h != Ok then (Value(), r, spawned) == (claimed, h, None)
              else if evidenceOk then (Value(), r, spawned) == (claimed, Ok, Some(claimed.generation))
              else (Value(), r) == Finish(claimed, claimed.generation, txn, false, None) && spawned == None
    {
      spawned := None;
      if !peer {
        return LinkClosed, None;
      }
      if !ready {
        return MessageNotPermitted, None;
      }
      if tooMany {
        return BadStructure, None;
      }
      if state != AwaitingEvidence || remoteTxn != Some(txn) {
        return UnknownTransaction, None;
      }
      state := Authorizing;
      if challenge.None? {
        return MessageNotPermitted, None;
      }
      challenge := None;
      if !evidenceOk {
        r := FinishRemote(generation, txn, false, None);
        return;
      }
      return Ok, Some(generation);
    }

    method FinishRemote(ofGeneration: Generation, txn: Txn, success: bool, address: Option<Address>) returns (r: Handled)
      modifies this
      ensures (Value(), r) == Finish(old(Value()), ofGeneration, txn, success, address)
    {
      if generation != ofGeneration || remoteTxn != Some(txn) {
        return UnknownTransaction;
      }
      remoteTxn, challenge := None, None;
      state := if success then Authorized else WaitingForLink;
      if address.Some? {
        addresses := [address.value];
      }
      return Ok;
    }

    method AuthorizationResult(ofGeneration: Generation, txn: Txn, verdict: Verdict) returns (next: Completion)
      modifies this
      ensures (Value(), next) == Completed(old(Value()), ofGeneration, txn, verdict)
    {
      var current := generation == ofGeneration && remoteTxn == Some(txn) && state == Authorizing;
      match verdict {
        case Granted(address, usable) =>
          if !current {
            return Disconnect(address);
          }
          if !usable {
            return DisconnectThenFinish(address);
          }
          var r := FinishRemote(ofGeneration, txn, true, Some(address));
          return if r == Ok then Nothing else Disconnect(address);
        case Refused =>
          if current {
            var r := FinishRemote(ofGeneration, txn, false, None);
          }
          return Nothing;
      }
    }

    /** `disconnects`: the addresses `actor_disconnect` is spawned for. */
    method LinkDown() returns (disconnects: seq<Address>)
      modifies this
      ensures (Value(), disconnects) == Down(old(Value()))
    {
      generation := WrappingSucc(generation);
      remoteTxn, challenge, state := None, None, WaitingForLink;
      disconnects := addresses;
      addresses := [];
    }
  }

  // ---------------------------------------------------------------- runs

  /** A call to the visa service: in flight, answered but not yet acted upon, or over. */
  datatype Task =
    | Calling(generation: Generation, txn: Txn)
    | Answered(generation: Generation, txn: Txn, verdict: Verdict)
    | Over(generation: Generation, txn: Txn, verdict: Verdict)

  /**
  The actor, its visa-service calls in the order they were made, the addresses `actor_disconnect`
  was issued for so far, completions waiting to report failure, and how often the generation
  advanced.
  */
  datatype World = World(
    actor: Actor, tasks: seq<Task>, issued: multiset<Address>, finishing: multiset<(Generation, Txn)>, bumps: nat)

  const INITIAL := World(NEW_ACTOR, [], multiset{}, multiset{}, 0)

  datatype Action =
    | DoStart(txn: Txn, ready: bool, peer: bool, challenge: Challenge)
    | DoAbandon(txn: Txn, ready: bool)
    | DoAcquire(txn: Txn, ready: bool, peer: bool, tooMany: bool, evidenceOk: bool)
    | ServiceAnswers(task: nat, verdict: Verdict)
    | TaskResumes(task: nat)
    | ReportFailure(generation: Generation, txn: Txn)
    | LinkGoesDown

  predicate Enabled(w: World, a: Action) {
    match a
    case ServiceAnswers(t, _) => t < |w.tasks| && w.tasks[t].Calling?
    case TaskResumes(t) => t < |w.tasks| && w.tasks[t].Answered?
    case ReportFailure(g, txn) => (g, txn) in w.finishing
    case _ => true
  }

  function Next(w: World, a: Action): World {
    match a
    case DoStart(txn, ready, peer, challenge) =>
      var (b, r) := Start(w.actor, txn, ready, peer, challenge);
      w.(actor := b, bumps := if r == Ok then w.bumps + 1 else w.bumps)
    case DoAbandon(txn, ready) => w.(actor := Abandon(w.actor, txn, ready).0)
    case DoAcquire(txn, ready, peer, tooMany, evidenceOk) =>
      var (b, r) := Claim(w.actor, txn, ready, peer, tooMany);
      if r != Ok then w.(actor := b)
      else if evidenceOk then w.(actor := b, tasks := w.tasks + [Calling(b.generation, txn)])
      else w.(actor := Finish(b, b.generation, txn, false, None).0)
    case ServiceAnswers(t, verdict) =>
      if t >= |w.tasks| then w
      else w.(tasks := w.tasks[t := Answered(w.tasks[t].generation, w.tasks[t].txn, verdict)])
    case TaskResumes(t) =>
      if t >= |w.tasks| || !w.tasks[t].Answered? then w else Resume(w, t)
    case ReportFailure(g, txn) =>
      w.(actor := Finish(w.actor, g, txn, false, None).0, finishing := w.finishing - multiset{(g, txn)})
    case LinkGoesDown =>
      var (b, disconnects) := Down(w.actor);
      w.(actor := b, issued := w.issued + multiset(disconnects), bumps := w.bumps + 1)
  }

  /** The address a completion passes to `actor_disconnect`. */
  function Issued(next: Completion): multiset<Address> {
    if next.Nothing? then multiset{} else multiset{next.address}
  }

  function Resume(w: World, t: nat): World
    requires t < |w.tasks| && w.tasks[t].Answered?
  {
    var Answered(g, txn, verdict) := w.tasks[t];
    var (b, next) := Completed(w.actor, g, txn, verdict);
    w.(actor := b, tasks := w.tasks[t := Over(g, txn, verdict)], issued := w.issued + Issued(next),
       finishing := if next.DisconnectThenFinish? then w.finishing + multiset{(g, txn)} else w.finishing)
  }

  // ---------------------------------------------------------------- what every run keeps

  /** A transaction, a challenge and an address are held in exactly the states that need them. */
  ghost predicate ActorInv(a: Actor) {
    && (a.remoteTxn.Some? <==> a.state == AwaitingEvidence || a.state == Authorizing)
    && (a.challenge.Some? <==> a.state == AwaitingEvidence)
    && (if a.state == Authorized then |a.addresses| == 1 else a.addresses == [])
  }

  function Brought(verdict: Verdict): multiset<Address> {
    if verdict.Granted? then multiset{verdict.address} else multiset{}
  }

  /** The registration a call brought, if the visa service granted one and the call has acted upon it. */
  function Registration(task: Task): multiset<Address> {
    if task.Over? then Brought(task.verdict) else multiset{}
  }

  function Brings(tasks: seq<Task>): seq<multiset<Address>> {
    seq(|tasks|, i requires 0 <= i < |tasks| => Registration(tasks[i]))
  }

  function Registrations(tasks: seq<Task>): multiset<Address> {
    Ledger.Total(Brings(tasks))
  }

  /** Only the changed call's registration changes. */
  lemma RegistrationsUpdate(tasks: seq<Task>, t: nat, task: Task)
    requires t < |tasks| && Registration(tasks[t]) == multiset{}
    ensures Registrations(tasks[t := task]) == Registrations(tasks) + Registration(task)
  {
    Ledger.Filled(Brings(tasks), t, Registration(task));
    assert Brings(tasks[t := task]) == Brings(tasks)[t := Registration(task)];
  }

  /**
  Every registration the visa service granted is waiting to be acted upon, or is the address the
  link owns, or had exactly one disconnect issued; and no other disconnect was ever issued.
  */
  ghost predicate Conserved(w: World) {
    Registrations(w.tasks) == w.issued + multiset(w.actor.addresses)
  }

  /** Before the generation wraps, no call is from a later generation than the current one. */
  ghost predicate GenerationInv(w: World) {
    w.bumps < GENERATIONS ==>
      && w.actor.generation == w.bumps
      && (forall t :: 0 <= t < |w.tasks| ==> w.tasks[t].generation <= w.bumps)
      && (forall p :: p in w.finishing ==> p.0 <= w.bumps)
  }

  ghost predicate Inv(w: World) {
    ActorInv(w.actor) && Conserved(w) && GenerationInv(w)
  }

  lemma LinkDownKeepsInv(w: World)
    requires Inv(w)
    ensures Inv(Next(w, LinkGoesDown))
  {
  }

  lemma CompletedCases(a: Actor, g: Generation, txn: Txn, verdict: Verdict)
    requires ActorInv(a)
    ensures var (b, next) := Completed(a, g, txn, verdict);
            && ActorInv(b) && b.generation == a.generation
            && (if verdict.Refused? then next.Nothing? && b.addresses == a.addresses
                else if next.Nothing? then a.addresses == [] && b.addresses == [verdict.address]
                else next.address == verdict.address && b.addresses == a.addresses)
  {
  }

  /** A completion owns the registration it brings or disconnects it, and never both or neither. */
  lemma CompletedBalances(a: Actor, g: Generation, txn: Txn, verdict: Verdict)
    requires ActorInv(a)
    ensures var (b, next) := Completed(a, g, txn, verdict);
            && ActorInv(b) && b.generation == a.generation
            && Registration(Over(g, txn, verdict)) + multiset(a.addresses) == Issued(next) + multiset(b.addresses)
  {
    CompletedCases(a, g, txn, verdict);
  }

  lemma ResumeConserves(w: World, t: nat)
    requires ActorInv(w.actor) && Conserved(w) && t < |w.tasks| && w.tasks[t].Answered?
    ensures ActorInv(Resume(w, t).actor) && Conserved(Resume(w, t))
  {
    var Answered(g, txn, verdict) := w.tasks[t];
    var over := Over(g, txn, verdict);
    var (b, next) := Completed(w.actor, g, txn, verdict);
    RegistrationsUpdate(w.tasks, t, over);
    CompletedBalances(w.actor, g, txn, verdict);
    Balance(Registrations(w.tasks), w.issued, multiset(w.actor.addresses), Registration(over), Issued(next),
            multiset(b.addresses));
  }

  lemma Balance(all: multiset<Address>, issued: multiset<Address>, held: multiset<Address>,
                brought: multiset<Address>, next: multiset<Address>, after: multiset<Address>)
    requires all == issued + held && brought + held == next + after
    ensures all + brought == issued + next + after
  {
    forall x
      ensures (all + brought)[x] == (issued + next + after)[x]
    {
      assert (brought + held)[x] == (next + after)[x];
    }
  }

  lemma ResumeKeepsGeneration(w: World, t: nat)
    requires ActorInv(w.actor) && GenerationInv(w) && t < |w.tasks| && w.tasks[t].Answered?
    ensures GenerationInv(Resume(w, t))
  {
    var Answered(g, txn, verdict) := w.tasks[t];
    CompletedBalances(w.actor, g, txn, verdict);
  }

  /** An answer that nobody has acted upon yet. */
  lemma AnswerConserves(w: World, t: nat, answer: Task)
    requires Conserved(w) && t < |w.tasks| && w.tasks[t].Calling? && answer.Answered?
    ensures Conserved(w.(tasks := w.tasks[t := answer]))
  {
    RegistrationsUpdate(w.tasks, t, answer);
    assert Registrations(w.tasks) + multiset{} == Registrations(w.tasks);
  }

  lemma AnswerKeepsGeneration(w: World, t: nat, answer: Task)
    requires GenerationInv(w) && t < |w.tasks| && answer.generation == w.tasks[t].generation
    ensures GenerationInv(w.(tasks := w.tasks[t := answer]))
  {
  }

  /** A call that was only made has brought nothing yet. */
  lemma CallConserves(w: World, call: Task, b: Actor)
    requires Conserved(w) && call.Calling? && b.addresses == w.actor.addresses
    ensures Conserved(w.(actor := b, tasks := w.tasks + [call]))
  {
    Ledger.Appended(Brings(w.tasks));
    assert Brings(w.tasks + [call]) == Brings(w.tasks) + [multiset{}];
  }

  lemma CallKeepsGenerations(w: World, call: Task, b: Actor)
    requires GenerationInv(w) && call.generation == b.generation == w.actor.generation
    ensures GenerationInv(w.(actor := b, tasks := w.tasks + [call]))
  {
  }

  lemma ClaimKeeps(a: Actor, txn: Txn, ready: bool, peer: bool, tooMany: bool)
    requires ActorInv(a)
    ensures var (b, r) := Claim(a, txn, ready, peer, tooMany);
            && b.addresses == a.addresses && b.generation == a.generation && ActorInv(b)
            && (r == Ok ==> ActorInv(Finish(b, b.generation, txn, false, None).0))
  {
  }

  lemma AcquireKeepsInv(w: World, txn: Txn, ready: bool, peer: bool, tooMany: bool, evidenceOk: bool)
    requires Inv(w)
    ensures Inv(Next(w, DoAcquire(txn, ready, peer, tooMany, evidenceOk)))
  {
    ClaimKeeps(w.actor, txn, ready, peer, tooMany);
    var (b, r) := Claim(w.actor, txn, ready, peer, tooMany);
    if r == Ok && evidenceOk {
      CallConserves(w, Calling(b.generation, txn), b);
      CallKeepsGenerations(w, Calling(b.generation, txn), b);
    }
  }

  lemma StartKeepsInv(w: World, txn: Txn, ready: bool, peer: bool, challenge: Challenge)
    requires Inv(w)
    ensures Inv(Next(w, DoStart(txn, ready, peer, challenge)))
  {
  }

  lemma AbandonKeepsInv(w: World, txn: Txn, ready: bool)
    requires Inv(w)
    ensures Inv(Next(w, DoAbandon(txn, ready)))
  {
  }

  /** A failure report gives up the transaction it is about, if that is current, and no address. */
  lemma FailureKeeps(a: Actor, g: Generation, txn: Txn)
    requires ActorInv(a)
    ensures var b := Finish(a, g, txn, false, None).0;
            ActorInv(b) && b.addresses == a.addresses && b.generation == a.generation
  {
  }

  lemma FewerFinishing(w: World, b: Actor, p: (Generation, Txn))
    requires GenerationInv(w) && b.generation == w.actor.generation
    ensures GenerationInv(w.(actor := b, finishing := w.finishing - multiset{p}))
  {
  }

  lemma FailureKeepsInv(w: World, g: Generation, txn: Txn)
    requires Inv(w)
    ensures Inv(Next(w, ReportFailure(g, txn)))
  {
    FailureKeeps(w.actor, g, txn);
    FewerFinishing(w, Finish(w.actor, g, txn, false, None).0, (g, txn));
  }

  lemma NextKeepsInv(w: World, a: Action)
    requires Inv(w) && Enabled(w, a)
    ensures Inv(Next(w, a))
  {
    match a
    case DoStart(txn, ready, peer, challenge) => StartKeepsInv(w, txn, ready, peer, challenge);
    case DoAbandon(txn, ready) => AbandonKeepsInv(w, txn, ready);
    case DoAcquire(txn, ready, peer, tooMany, evidenceOk) =>
      AcquireKeepsInv(w, txn, ready, peer, tooMany, evidenceOk);
    case ServiceAnswers(t, verdict) =>
      var answer := Answered(w.tasks[t].generation, w.tasks[t].txn, verdict);
      AnswerConserves(w, t, answer);
      AnswerKeepsGeneration(w, t, answer);
    case TaskResumes(t) =>
      ResumeConserves(w, t);
      ResumeKeepsGeneration(w, t);
    case ReportFailure(g, txn) => FailureKeepsInv(w, g, txn);
    case LinkGoesDown => LinkDownKeepsInv(w);
  }

  /**
  Over every interleaving of requests, visa-service answers, late completions and link loss:
  registrations are conserved, and transaction, challenge and address are held in exactly the
  states that need them.
  */
  lemma EveryRunConserves(actions: seq<Action>)
    requires Runs.Legal(Enabled, Next, INITIAL, actions)
    ensures Inv(Runs.Run(Next, INITIAL, actions))
  {
    RunKeepsInv(INITIAL, actions);
  }

  lemma RunKeepsInv(w: World, actions: seq<Action>)
    requires Inv(w) && Runs.Legal(Enabled, Next, w, actions)
    ensures Inv(Runs.Run(Next, w, actions))
  {
    forall v, a | Inv(v) && Enabled(v, a)
      ensures Inv(Next(v, a))
    {
      NextKeepsInv(v, a);
    }
    Runs.Invariant(Enabled, Next, Inv, w, actions);
  }

  /** A completion of another generation or transaction leaves the actor as it is. */
  lemma StaleCompletionIsInert(a: Actor, generation: Generation, txn: Txn, verdict: Verdict)
    ensures a.generation != generation || a.remoteTxn != Some(txn) ==>
              && Completed(a, generation, txn, verdict).0 == a
              && Finish(a, generation, txn, false, None).0 == a
              && (verdict.Granted? ==> Completed(a, generation, txn, verdict).1 == Disconnect(verdict.address))
  {
  }

  /** A call keeps its generation, and the generation count never goes back. */
  ghost predicate Remembers(t: nat, g: Generation, bumps: nat, w: World) {
    t < |w.tasks| && w.tasks[t].generation == g && w.bumps >= bumps
  }

  lemma CallKeepsGeneration(w: World, actions: seq<Action>, t: nat)
    requires Runs.Legal(Enabled, Next, w, actions) && t < |w.tasks|
    ensures Remembers(t, w.tasks[t].generation, w.bumps, Runs.Run(Next, w, actions))
  {
    var g := w.tasks[t].generation;
    Runs.Invariant(Enabled, Next, v => Remembers(t, g, w.bumps, v), w, actions);
  }

  /** A call remembered from before the generation advanced is not of the current one. */
  lemma RememberedIsStale(w: World, later: World, t: nat)
    requires t < |w.tasks| && GenerationInv(w) && GenerationInv(later) && later.bumps < GENERATIONS
    requires Remembers(t, w.tasks[t].generation, w.bumps + 1, later)
    ensures later.tasks[t].generation != later.actor.generation
  {
  }

  lemma StaleResume(w: World, t: nat)
    requires t < |w.tasks| && w.tasks[t].Answered? && w.tasks[t].generation != w.actor.generation
    ensures Resume(w, t).actor == w.actor && Resume(w, t).issued == w.issued + Brought(w.tasks[t].verdict)
  {
  }

  /**
  Once the link went down, a call from before it never again changes the actor: whenever it
  resumes, a granted registration is disconnected there and then.
  */
  lemma LateCompletionAfterLinkDown(w: World, actions: seq<Action>, t: nat)
    requires Inv(w) && t < |w.tasks| && Runs.Legal(Enabled, Next, Next(w, LinkGoesDown), actions)
    requires var later := Runs.Run(Next, Next(w, LinkGoesDown), actions);
             later.bumps < GENERATIONS && Enabled(later, TaskResumes(t))
    ensures var later := Runs.Run(Next, Next(w, LinkGoesDown), actions);
            var after := Next(later, TaskResumes(t));
            && after.actor == later.actor
            && after.issued == later.issued + Brought(later.tasks[t].verdict)
  {
    var down := Next(w, LinkGoesDown);
    LinkDownKeepsInv(w);
    RunKeepsInv(down, actions);
    CallKeepsGeneration(down, actions, t);
    var later := Runs.Run(Next, down, actions);
    RememberedIsStale(w, later, t);
    StaleResume(later, t);
    assert Next(later, TaskResumes(t)) == Resume(later, t);
  }

  // ---------------------------------------------------------------- how an authorization gets done

  /** Which requests are taken. */
  lemma TakenIff(a: Actor, txn: Txn, ready: bool, peer: bool, challenge: Challenge, tooMany: bool)
    requires ActorInv(a)
    ensures Start(a, txn, ready, peer, challenge).1 == Ok <==> ready && peer && a.remoteTxn.None? && a.addresses == []
    ensures Abandon(a, txn, ready).1 == Ok <==> ready && a.state == AwaitingEvidence && a.remoteTxn == Some(txn)
    ensures Claim(a, txn, ready, peer, tooMany).1 == Ok
       <==> ready && peer && !tooMany && a.state == AwaitingEvidence && a.remoteTxn == Some(txn)
  {
  }

  /** One that is not taken leaves the actor as it is. */
  lemma RefusedLeavesActor(a: Actor, txn: Txn, ready: bool, peer: bool, challenge: Challenge, tooMany: bool)
    requires ActorInv(a)
    ensures Start(a, txn, ready, peer, challenge).1 != Ok ==> Start(a, txn, ready, peer, challenge).0 == a
    ensures Abandon(a, txn, ready).1 != Ok ==> Abandon(a, txn, ready).0 == a
    ensures Claim(a, txn, ready, peer, tooMany).1 != Ok ==> Claim(a, txn, ready, peer, tooMany).0 == a
  {
  }

  /** Abandoning undoes starting, but for the generation, so the adapter can start again. */
  lemma AbandonUndoesStart(a: Actor, txn: Txn, challenge: Challenge)
    requires ActorInv(a) && a.remoteTxn.None? && a.addresses == []
    ensures var started := Start(a, txn, true, true, challenge).0;
            && started.challenge == Some(challenge)
            && Abandon(started, txn, true)
               == (Actor(WaitingForLink, WrappingSucc(a.generation), None, None, []), Ok)
  {
  }

  /**
  A current completion: exactly a usable grant is owned, and nothing is disconnected for it; an
  unusable one is disconnected and then reported as a failure, as a refusal is at once.
  */
  lemma CurrentCompletion(a: Actor, txn: Txn, verdict: Verdict)
    requires Current(a, a.generation, txn) && a.addresses == []
    ensures var (b, next) := Completed(a, a.generation, txn, verdict);
            && (b.state == Authorized <==> verdict.Granted? && verdict.usable)
            && (b.state == Authorized ==> b.addresses == [verdict.address] && b.remoteTxn.None? && next.Nothing?)
            && (verdict.Granted? && !verdict.usable ==>
                  && next == DisconnectThenFinish(verdict.address) && b == a
                  && Finish(b, a.generation, txn, false, None).0 == Actor(WaitingForLink, a.generation, None, None, []))
            && (verdict.Refused? ==> next.Nothing? && b == Actor(WaitingForLink, a.generation, None, None, []))
  {
  }

  /** A step that belongs to the transaction `txn` of generation `g`, or takes the link down. */
  predicate StepOf(w: World, a: Action, g: Generation, txn: Txn) {
    match a
    case DoAbandon(t, _) => t == txn
    case DoAcquire(t, _, _, _, _) => t == txn
    case TaskResumes(t) => t < |w.tasks| && w.tasks[t].generation == g && w.tasks[t].txn == txn
    case ReportFailure(h, t) => h == g && t == txn
    case LinkGoesDown => true
    case _ => false
  }

  predicate Elsewhere(w: World, a: Action, g: Generation, txn: Txn) {
    Enabled(w, a) && !StepOf(w, a, g, txn)
  }

  lemma ElsewhereKeepsActor(w: World, a: Action, g: Generation, txn: Txn)
    requires ActorInv(w.actor) && w.actor.remoteTxn == Some(txn) && w.actor.generation == g && Elsewhere(w, a, g, txn)
    ensures Next(w, a).actor == w.actor
  {
  }

  /** Whatever other transactions and their calls do, they leave an open one alone. */
  lemma OpenTransactionStays(w: World, g: Generation, txn: Txn, actions: seq<Action>)
    requires ActorInv(w.actor) && w.actor.remoteTxn == Some(txn) && w.actor.generation == g
    requires Runs.Legal((v, a) => Elsewhere(v, a, g, txn), Next, w, actions)
    ensures Runs.Run(Next, w, actions).actor == w.actor
  {
    forall v: World, a | v.actor == w.actor && Elsewhere(v, a, g, txn)
      ensures Next(v, a).actor == w.actor
    {
      ElsewhereKeepsActor(v, a, g, txn);
    }
    Runs.Invariant((v, a) => Elsewhere(v, a, g, txn), Next, (v: World) => v.actor == w.actor, w, actions);
  }

  function Acquired(w: World, txn: Txn, challenge: Challenge, before: seq<Action>): World {
    Next(Runs.Run(Next, Next(w, DoStart(txn, true, true, challenge)), before), DoAcquire(txn, true, true, false, true))
  }

  predicate AllElsewhere(w: World, g: Generation, txn: Txn, actions: seq<Action>) {
    Runs.Legal((v, a) => Elsewhere(v, a, g, txn), Next, w, actions)
  }

  lemma StartOpens(w: World, txn: Txn, challenge: Challenge)
    requires ActorInv(w.actor) && w.actor.remoteTxn.None? && w.actor.addresses == []
    ensures var a := Next(w, DoStart(txn, true, true, challenge)).actor;
            && ActorInv(a) && a.state == AwaitingEvidence && a.remoteTxn == Some(txn)
            && a.generation == WrappingSucc(w.actor.generation)
  {
  }

  lemma AcquiredIsAuthorizing(w: World, txn: Txn, challenge: Challenge, before: seq<Action>)
    requires ActorInv(w.actor) && w.actor.remoteTxn.None? && w.actor.addresses == []
    requires AllElsewhere(Next(w, DoStart(txn, true, true, challenge)), WrappingSucc(w.actor.generation), txn, before)
    ensures var acquired := Acquired(w, txn, challenge, before);
            var g := WrappingSucc(w.actor.generation);
            && acquired.tasks != [] && acquired.tasks[|acquired.tasks| - 1] == Calling(g, txn)
            && Current(acquired.actor, g, txn) && acquired.actor.addresses == [] && ActorInv(acquired.actor)
  {
    var g := WrappingSucc(w.actor.generation);
    var started := Next(w, DoStart(txn, true, true, challenge));
    StartOpens(w, txn, challenge);
    OpenTransactionStays(started, g, txn, before);
    AcquireCalls(Runs.Run(Next, started, before), txn, g);
  }

  /**
  How an authorization gets done: start, acquire with good evidence, and once the visa service has
  granted a usable address, the call's completion leaves the actor authorized with it and issues no
  disconnect, whatever other transactions and calls did before and in between.
  */
  lemma GrantAuthorizes(
    w: World, txn: Txn, challenge: Challenge, before: seq<Action>, between: seq<Action>, address: Address)
    requires ActorInv(w.actor) && w.actor.remoteTxn.None? && w.actor.addresses == []
    requires AllElsewhere(Next(w, DoStart(txn, true, true, challenge)), WrappingSucc(w.actor.generation), txn, before)
    requires var acquired := Acquired(w, txn, challenge, before);
             && acquired.tasks != []
             && AllElsewhere(acquired, WrappingSucc(w.actor.generation), txn, between)
             && var later, t := Runs.Run(Next, acquired, between), |acquired.tasks| - 1;
                && t < |later.tasks|
                && later.tasks[t] == Answered(WrappingSucc(w.actor.generation), txn, Granted(address, true))
    ensures var acquired := Acquired(w, txn, challenge, before);
            var later := Runs.Run(Next, acquired, between);
            var done := Next(later, TaskResumes(|acquired.tasks| - 1));
            done.actor.state == Authorized && done.actor.addresses == [address] && done.issued == later.issued
  {
    var g := WrappingSucc(w.actor.generation);
    AcquiredIsAuthorizing(w, txn, challenge, before);
    var acquired := Acquired(w, txn, challenge, before);
    OpenTransactionStays(acquired, g, txn, between);
    GrantResumes(Runs.Run(Next, acquired, between), |acquired.tasks| - 1, g, txn, address);
  }

  lemma AcquireCalls(w: World, txn: Txn, g: Generation)
    requires ActorInv(w.actor) && w.actor.state == AwaitingEvidence && w.actor.remoteTxn == Some(txn)
    requires w.actor.generation == g
    ensures var after := Next(w, DoAcquire(txn, true, true, false, true));
            && after.tasks == w.tasks + [Calling(g, txn)] && Current(after.actor, g, txn)
            && after.actor.addresses == [] && ActorInv(after.actor)
  {
  }

  lemma GrantResumes(w: World, t: nat, g: Generation, txn: Txn, address: Address)
    requires t < |w.tasks| && w.tasks[t] == Answered(g, txn, Granted(address, true))
    requires Current(w.actor, g, txn) && w.actor.addresses == []
    ensures var done := Next(w, TaskResumes(t));
            done.actor.state == Authorized && done.actor.addresses == [address] && done.issued == w.issued
  {
    CurrentCompletion(w.actor, txn, Granted(address, true));
  }

  /**
  How one fails: bad evidence, a refusal, or a grant that cannot be used ends the transaction, calls
  nobody else, and leaves the adapter free to start again; the unusable address is disconnected.
  */
  lemma FailureStartsOver(w: World, txn: Txn, g: Generation)
    requires ActorInv(w.actor) && w.actor.remoteTxn == Some(txn) && w.actor.generation == g
    ensures var over := Actor(WaitingForLink, g, None, None, []);
            && (w.actor.state == AwaitingEvidence ==>
                  Next(w, DoAcquire(txn, true, true, false, false)) == w.(actor := over))
            && (w.actor.state == Authorizing ==>
                  Next(w, ReportFailure(g, txn)) == w.(actor := over, finishing := w.finishing - multiset{(g, txn)}))
  {
  }

  lemma FailedAnswer(w: World, t: nat, txn: Txn, g: Generation, verdict: Verdict)
    requires t < |w.tasks| && w.tasks[t] == Answered(g, txn, verdict)
    requires Current(w.actor, g, txn) && w.actor.addresses == []
    ensures verdict.Refused? ==>
              var after := Next(w, TaskResumes(t));
              && after.actor == Actor(WaitingForLink, g, None, None, []) && after.issued == w.issued
              && after.finishing == w.finishing
    ensures verdict.Granted? && !verdict.usable ==>
              var after := Next(w, TaskResumes(t));
              && after.actor == w.actor && after.issued == w.issued + multiset{verdict.address}
              && after.finishing == w.finishing + multiset{(g, txn)}
  {
    CurrentCompletion(w.actor, txn, verdict);
  }
}

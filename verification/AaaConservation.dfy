/**
AAA addresses across all the links of a node (adapter/ph/src/link_state.rs,
adapter/ph/src/address_pool.rs, adapter/ph/src/assembly.rs): a pool that is fixed and AAA-marked,
links to adapters that come and go, and the close tasks that were started and not yet delivered.
*/
module AaaConservation {
  import opened Bytes
  import opened Classifier
  import opened AddressPool
  import opened LinkState
  import LinkProgress
  import Runs

  type LinkId = nat

  datatype Node = Node(base: Address, links: map<LinkId, Link>, active: set<nat>, closeTasks: multiset<LinkId>)

  datatype Action =
    | AddLink(id: LinkId)
    | OnLink(id: LinkId, event: Event, choice: nat)
    | DeliverCloseDone(id: LinkId)

  /** The pool answers a hello request that is awaited; `choice` is the free id it finds. */
  predicate Allocates(l: Link, e: Event) {
    e.DoHelloRequest? && AwaitsHelloRequest(l)
  }

  function WithAddress(n: Node, e: Event, choice: nat): Event
    requires choice < ID_COUNT
  {
    if e.DoHelloRequest? then DoHelloRequest(Some(Encode(n.base, choice)), e.isVs, e.vsconn) else e
  }

  /** A link id is taken again only when no close task of its former link is outstanding. */
  predicate Enabled(n: Node, a: Action) {
    match a
    case AddLink(id) => id !in n.links && id !in n.closeTasks
    case OnLink(id, e, choice) =>
      && id in n.links && e != DoCloseDone && LinkState.Enabled(n.links[id], e)
      && choice < ID_COUNT && (Allocates(n.links[id], e) ==> choice !in n.active)
    case DeliverCloseDone(id) => id in n.closeTasks
  }

  /** Carry a handler's effects out of link `id`. */
  function Perform(n: Node, id: LinkId, l: Link, fx: Effects): Node {
    n.(
      links := if fx.dropPeer then n.links - {id} else n.links[id := l],
      active := if fx.releaseAaa.Some? then AfterRelease(n.active, fx.releaseAaa.value) else n.active,
      closeTasks := if fx.closeDone then n.closeTasks + multiset{id} else n.closeTasks)
  }

  function Next(n: Node, a: Action): Node {
    match a
    case AddLink(id) => n.(links := n.links[id := NewLink(NodeToAdapter)])
    case OnLink(id, e, choice) =>
      if id !in n.links || choice >= ID_COUNT then n else
      var l := n.links[id];
      var (m, _, fx) := Apply(l, WithAddress(n, e, choice));
      Perform(n.(active := if Allocates(l, e) then n.active + {choice} else n.active), id, m, fx)
    case DeliverCloseDone(id) =>
      var n := n.(closeTasks := n.closeTasks - multiset{id});
      if id !in n.links then n else
      var (m, _, fx) := CloseDone(n.links[id]);
      Perform(n, id, m, fx)
  }

  // ---------------------------------------------------------------- conservation

  type Holdings = map<LinkId, Option<Address>>

  predicate HoldsId(held: Holdings, i: LinkId, k: nat) {
    i in held && held[i].Some? && Decode(held[i].value) == k
  }

  /** The active ids are exactly those of the addresses links hold, and no two links share one. */
  ghost predicate Balanced(base: Address, held: Holdings, active: set<nat>) {
    && (forall i :: i in held && held[i].Some? ==>
          Decode(held[i].value) in active && held[i].value == Encode(base, Decode(held[i].value)))
    && (forall k :: k in active ==> exists i :: HoldsId(held, i, k))
    && (forall i, j, k :: HoldsId(held, i, k) && HoldsId(held, j, k) ==> i == j)
  }

  function Held(links: map<LinkId, Link>): Holdings {
    map i | i in links :: links[i].aaa
  }

  ghost predicate Conserved(n: Node) {
    Balanced(n.base, Held(n.links), n.active)
  }

  predicate Early(s: State) {
    s == Inactive || s == Keying || s == Helloing
  }

  /** A link that is being torn down and holds nothing stays so. */
  predicate Spent(l: Link) {
    l.aaa.None? && !Early(l.state) && l.state != Active
  }

  ghost predicate Inv(n: Node) {
    && IsAaa(n.base) && Conserved(n)
    && (forall i :: i in n.links ==> n.links[i].kind == NodeToAdapter && (Early(n.links[i].state) ==> n.links[i].aaa.None?))
    && (forall i :: i in n.links && i in n.closeTasks ==> Spent(n.links[i]))
  }

  /** What one step of a node link does to its address. */
  ghost predicate AddressStep(l: Link, e: Event, m: Link, fx: Effects) {
    && m.kind == l.kind && !fx.dropPeer && (Early(m.state) ==> m.aaa.None?)
    && (Allocates(l, e) ==> l.aaa.None? && m.aaa == e.address && fx.releaseAaa.None? && !fx.closeDone)
    && (!Allocates(l, e) ==>
          || (m.aaa == l.aaa && fx.releaseAaa.None? && !fx.closeDone)
          || (m.aaa.None? && fx.releaseAaa == l.aaa))
    && (fx.closeDone || Spent(l) ==> Spent(m))
  }

  /** Starting to close moves no address. */
  lemma CloseKeepsAddress(l: Link, reason: TerminateReason, vs: bool)
    ensures var (m, _, fx) := InitiateClose(l, reason, vs);
            && m.kind == l.kind && m.aaa == l.aaa && (m.state.Closing? || m.state.Disconnecting?)
            && (!vs ==> m.state.Closing?)
            && fx.releaseAaa.None? && !fx.closeDone && !fx.dropPeer
  {
  }

  lemma CloseAddressStep(l: Link, e: Event, reason: TerminateReason, vs: bool)
    requires l.kind == NodeToAdapter && !Allocates(l, e)
    ensures var (m, _, fx) := InitiateClose(l, reason, vs); AddressStep(l, e, m, fx)
  {
    CloseKeepsAddress(l, reason, vs);
    var (m, _, fx) := InitiateClose(l, reason, vs);
    assert m.aaa == l.aaa && fx.releaseAaa.None? && !fx.closeDone;
    assert Spent(l) ==> Spent(m);
  }

  lemma TimeoutAddressStep(l: Link, clock: Clock, vs: bool)
    requires l.kind == NodeToAdapter && (Early(l.state) ==> l.aaa.None?)
    ensures var (m, _, fx) := Timeout(l, clock, vs); AddressStep(l, FireTimer(clock, vs), m, fx)
  {
    if clock == l.clock && l.state == Active && l.echo {
      CloseAddressStep(SetState(l.(echo := false), Error, false), FireTimer(clock, vs), RequestTimedOut, vs);
    }
  }

  lemma HelloAddressStep(l: Link, address: Option<Address>, isVs: bool, vsconn: bool)
    requires l.kind == NodeToAdapter && (Early(l.state) ==> l.aaa.None?) && address.Some?
    ensures var (m, _, fx) := HelloRequest(l, address, isVs, vsconn);
            AddressStep(l, DoHelloRequest(address, isVs, vsconn), m, fx)
  {
  }

  lemma TeardownAddressStep(l: Link, e: Event)
    requires l.kind == NodeToAdapter && (Early(l.state) ==> l.aaa.None?)
    requires e == DoTerminateLink || e == DoTerminateAck || e == DoResetLink
    ensures var (m, _, fx) := Apply(l, e); AddressStep(l, e, m, fx)
  {
  }

  lemma BringUpAddressStep(l: Link, e: Event)
    requires l.kind == NodeToAdapter && (Early(l.state) ==> l.aaa.None?)
    requires e.DoStart? || e.DoKeyingDone? || e.DoKeepAlive? || e.DoDisconnectAck?
    ensures var (m, _, fx) := Apply(l, e); AddressStep(l, e, m, fx)
  {
  }

  lemma LinkAddressStep(l: Link, e: Event)
    requires l.kind == NodeToAdapter && (Early(l.state) ==> l.aaa.None?)
    requires e != DoCloseDone && (e.DoHelloRequest? ==> e.address.Some?)
    ensures var (m, _, fx) := Apply(l, e); AddressStep(l, e, m, fx)
  {
    match e
    case DoStart => BringUpAddressStep(l, e);
    case DoKeyingDone(_, _) => BringUpAddressStep(l, e);
    case DoHelloRequest(address, isVs, vsconn) => HelloAddressStep(l, address, isVs, vsconn);
    case DoHelloResponse(_, _, _, _, vs) => CloseAddressStep(l, e, Other, vs);
    case DoKeepAlive => BringUpAddressStep(l, e);
    case DoTerminateLink => TeardownAddressStep(l, e);
    case DoTerminateAck => TeardownAddressStep(l, e);
    case DoDisconnectAck => BringUpAddressStep(l, e);
    case DoClose(reason, vs) => CloseAddressStep(l, e, reason, vs);
    case DoResetLink => TeardownAddressStep(l, e);
    case FireTimer(clock, vs) =>
      TimeoutAddressStep(l.(history := l.history.(timers := l.history.timers - multiset{clock})), clock, vs);
  }

  lemma HeldUpdate(links: map<LinkId, Link>, id: LinkId, l: Link)
    ensures Held(links[id := l]) == Held(links)[id := l.aaa]
  {
  }

  lemma SameAddressConserved(n: Node, id: LinkId, l: Link, tasks: multiset<LinkId>)
    requires Conserved(n) && id in n.links && l.aaa == n.links[id].aaa
    ensures Conserved(n.(links := n.links[id := l], closeTasks := tasks))
  {
    HeldUpdate(n.links, id, l);
    assert Held(n.links)[id := l.aaa] == Held(n.links);
  }

  lemma ReleaseBalanced(base: Address, held: Holdings, active: set<nat>, id: LinkId)
    requires Balanced(base, held, active) && id in held && held[id].Some?
    ensures Balanced(base, held[id := None], active - {Decode(held[id].value)})
  {
    var after, freed := held[id := None], Decode(held[id].value);
    assert HoldsId(held, id, freed);
    forall k | k in active - {freed}
      ensures exists i :: HoldsId(after, i, k)
    {
      var i :| HoldsId(held, i, k);
      assert HoldsId(after, i, k);
    }
    forall i, k | HoldsId(after, i, k)
      ensures HoldsId(held, i, k) && k != freed
    {
      assert i != id && HoldsId(held, i, k);
    }
    forall i | i in after && after[i].Some?
      ensures Decode(after[i].value) != freed
    {
      assert HoldsId(after, i, Decode(after[i].value));
    }
  }

  lemma ReleaseConserved(n: Node, id: LinkId, l: Link, tasks: multiset<LinkId>)
    requires Conserved(n) && id in n.links && l.aaa.None? && n.links[id].aaa.Some?
    ensures Conserved(n.(
              links := n.links[id := l], active := n.active - {Decode(n.links[id].aaa.value)}, closeTasks := tasks))
  {
    ReleaseBalanced(n.base, Held(n.links), n.active, id);
    HeldUpdate(n.links, id, l);
  }

  lemma AllocateBalanced(base: Address, held: Holdings, active: set<nat>, id: LinkId, choice: nat)
    requires Balanced(base, held, active) && id in held && held[id].None?
    requires choice < ID_COUNT && choice !in active
    ensures Balanced(base, held[id := Some(Encode(base, choice))], active + {choice})
  {
    DecodeEncode(base, choice);
    var after := held[id := Some(Encode(base, choice))];
    assert HoldsId(after, id, choice);
    forall k | k in active
      ensures exists i :: HoldsId(after, i, k)
    {
      var i :| HoldsId(held, i, k);
      assert HoldsId(after, i, k);
    }
    forall i, k | HoldsId(after, i, k)
      ensures if i == id then k == choice else HoldsId(held, i, k) && k in active
    {
    }
  }

  lemma AllocateConserved(n: Node, id: LinkId, l: Link, choice: nat, tasks: multiset<LinkId>)
    requires Conserved(n) && id in n.links && n.links[id].aaa.None?
    requires choice < ID_COUNT && choice !in n.active && l.aaa == Some(Encode(n.base, choice))
    ensures Conserved(n.(links := n.links[id := l], active := n.active + {choice}, closeTasks := tasks))
  {
    AllocateBalanced(n.base, Held(n.links), n.active, id, choice);
    HeldUpdate(n.links, id, l);
  }

  /** A step that moves one link's address, and the pool with it, keeps the node's invariant. */
  lemma PerformKeepsInv(n: Node, id: LinkId, e: Event, choice: nat, m: Link, fx: Effects)
    requires Inv(n) && id in n.links && choice < ID_COUNT
    requires AddressStep(n.links[id], e, m, fx)
    requires Allocates(n.links[id], e) ==> choice !in n.active && e.address == Some(Encode(n.base, choice))
    ensures Inv(Perform(n.(active := if Allocates(n.links[id], e) then n.active + {choice} else n.active), id, m, fx))
  {
    var l := n.links[id];
    var tasks := if fx.closeDone then n.closeTasks + multiset{id} else n.closeTasks;
    if Allocates(l, e) {
      AllocateConserved(n, id, m, choice, tasks);
    } else if m.aaa.None? && l.aaa.Some? {
      assert Held(n.links)[id] == l.aaa;
      InNetwork(n.base, Decode(l.aaa.value));
      ReleaseConserved(n, id, m, tasks);
    } else {
      SameAddressConserved(n, id, m, tasks);
    }
  }

  lemma OnLinkKeepsInv(n: Node, id: LinkId, e: Event, choice: nat)
    requires Inv(n) && Enabled(n, OnLink(id, e, choice))
    ensures Inv(Next(n, OnLink(id, e, choice)))
  {
    var e' := WithAddress(n, e, choice);
    var (m, _, fx) := Apply(n.links[id], e');
    LinkAddressStep(n.links[id], e');
    PerformKeepsInv(n, id, e', choice, m, fx);
  }

  lemma DropBalancedIff(base: Address, held: Holdings, active: set<nat>, id: LinkId)
    requires Balanced(base, held, active) && id in held
    ensures Balanced(base, held - {id}, active) <==> held[id].None?
  {
    var after := held - {id};
    if held[id].Some? {
      var k := Decode(held[id].value);
      assert HoldsId(held, id, k);
      assert forall i :: HoldsId(after, i, k) ==> HoldsId(held, i, k);
    } else {
      forall k | k in active
        ensures exists i :: HoldsId(after, i, k)
      {
        var i :| HoldsId(held, i, k);
        assert HoldsId(after, i, k);
      }
      assert forall i, k :: HoldsId(after, i, k) ==> HoldsId(held, i, k);
    }
  }

  /** Dropping a link keeps the ids conserved exactly if it holds none. */
  lemma DropConservesIff(n: Node, id: LinkId)
    requires Conserved(n) && id in n.links
    ensures Conserved(n.(links := n.links - {id})) <==> n.links[id].aaa.None?
  {
    DropBalancedIff(n.base, Held(n.links), n.active, id);
    assert Held(n.links - {id}) == Held(n.links) - {id};
  }

  /**
  Exactly when delivering a close task loses an address: it drops a link that is closing or
  resetting and still holds one.
  */
  lemma CloseDoneConservesIff(n: Node, id: LinkId)
    requires Conserved(n) && id in n.links && n.links[id].kind == NodeToAdapter
    ensures Conserved(Next(n, DeliverCloseDone(id)))
       <==> !(n.links[id].aaa.Some? && (n.links[id].state == Closing || n.links[id].state == Resetting))
  {
    var tasks := n.closeTasks - multiset{id};
    CloseDoneStep(n, id);
    TasksDoNotMatter(n, tasks);
    TasksDoNotMatter(n.(links := n.links - {id}), tasks);
    DropConservesIff(n, id);
  }

  lemma TasksDoNotMatter(n: Node, tasks: multiset<LinkId>)
    ensures Conserved(n.(closeTasks := tasks)) <==> Conserved(n)
  {
  }

  lemma CloseDoneStep(n: Node, id: LinkId)
    requires id in n.links && n.links[id].kind == NodeToAdapter
    ensures var drops := n.links[id].state == Closing || n.links[id].state == Resetting;
            Next(n, DeliverCloseDone(id))
            == n.(links := if drops then n.links - {id} else n.links, closeTasks := n.closeTasks - multiset{id})
  {
    assert n.links[id := n.links[id]] == n.links;
  }

  lemma CloseDoneKeepsInv(n: Node, id: LinkId)
    requires Inv(n) && Enabled(n, DeliverCloseDone(id))
    ensures Inv(Next(n, DeliverCloseDone(id)))
  {
    if id in n.links {
      CloseDoneStep(n, id);
      CloseDoneConservesIff(n, id);
    } else {
      TasksDoNotMatter(n, n.closeTasks - multiset{id});
    }
  }

  lemma AddBalanced(base: Address, held: Holdings, active: set<nat>, id: LinkId)
    requires Balanced(base, held, active) && id !in held
    ensures Balanced(base, held[id := None], active)
  {
    var after := held[id := None];
    forall k | k in active
      ensures exists i :: HoldsId(after, i, k)
    {
      var i :| HoldsId(held, i, k);
      assert HoldsId(after, i, k);
    }
    assert forall i, k :: HoldsId(after, i, k) ==> HoldsId(held, i, k);
  }

  lemma AddKeepsInv(n: Node, id: LinkId)
    requires Inv(n) && Enabled(n, AddLink(id))
    ensures Inv(Next(n, AddLink(id)))
  {
    AddBalanced(n.base, Held(n.links), n.active, id);
    HeldUpdate(n.links, id, NewLink(NodeToAdapter));
  }

  lemma NextKeepsInv(n: Node, a: Action)
    requires Inv(n) && Enabled(n, a)
    ensures Inv(Next(n, a))
  {
    match a
    case AddLink(id) => AddKeepsInv(n, id);
    case OnLink(id, e, choice) => OnLinkKeepsInv(n, id, e, choice);
    case DeliverCloseDone(id) => CloseDoneKeepsInv(n, id);
  }

  /**
  In every state a node reaches, over any interleaving of its links' events: the pool's active ids
  are exactly those of the addresses its links hold, and no two links hold the same.
  */
  lemma EveryRunConserves(base: Address, actions: seq<Action>)
    requires IsAaa(base)
    requires Runs.Legal(Enabled, Next, Node(base, map[], {}, multiset{}), actions)
    ensures Conserved(Runs.Run(Next, Node(base, map[], {}, multiset{}), actions))
  {
    var empty := Node(base, map[], {}, multiset{});
    forall n, a | Inv(n) && Enabled(n, a)
      ensures Inv(Next(n, a))
    {
      NextKeepsInv(n, a);
    }
    Runs.Invariant(Enabled, Next, Inv, empty, actions);
  }

  /** A link closed, cleaned up by its timer or the peer's acknowledgement, and its close delivered. */
  function ClosedDown(n: Node, id: LinkId, reason: TerminateReason, acked: bool): Node {
    var closing := Next(n, OnLink(id, DoClose(reason, false), 0));
    if id !in closing.links then closing else
    var last := if acked then DoTerminateAck else FireTimer(closing.links[id].clock, false);
    Next(Next(closing, OnLink(id, last, 0)), DeliverCloseDone(id))
  }

  /** Closing gets done: the link is gone, exactly its id is free again, and its close task is used up. */
  lemma ClosingFreesId(n: Node, id: LinkId, reason: TerminateReason, acked: bool)
    requires Inv(n) && id in n.links && id !in n.closeTasks
    ensures var after := ClosedDown(n, id, reason, acked);
            && after.links == n.links - {id} && after.closeTasks == n.closeTasks && after.base == n.base
            && after.active == (if n.links[id].aaa.Some? then n.active - {Decode(n.links[id].aaa.value)} else n.active)
            && Conserved(after)
  {
    var l := n.links[id];
    LinkProgress.CloseStep(l, reason);
    var closing := Next(n, OnLink(id, DoClose(reason, false), 0));
    var m := LinkState.Next(l, DoClose(reason, false));
    assert closing == n.(links := n.links[id := m]);
    CleanedNode(closing, id, acked);
    var last := if acked then DoTerminateAck else FireTimer(m.clock, false);
    var clean := Next(closing, OnLink(id, last, 0));
    CloseDoneStep(clean, id);
    ReleasedAndDropped(n, id);
  }

  /** Releasing a link's address and dropping it keeps the rest balanced. */
  lemma ReleasedAndDropped(n: Node, id: LinkId)
    requires Inv(n) && id in n.links
    ensures var l := n.links[id];
            var active := if l.aaa.Some? then n.active - {Decode(l.aaa.value)} else n.active;
            && Balanced(n.base, Held(n.links - {id}), active)
            && (l.aaa.Some? ==> AfterRelease(n.active, l.aaa.value) == active)
  {
    var l := n.links[id];
    assert Held(n.links)[id] == l.aaa;
    assert Held(n.links - {id}) == Held(n.links) - {id};
    if l.aaa.Some? {
      InNetwork(n.base, Decode(l.aaa.value));
      ReleaseBalanced(n.base, Held(n.links), n.active, id);
      DropBalancedIff(n.base, Held(n.links)[id := None], n.active - {Decode(l.aaa.value)}, id);
      assert Held(n.links)[id := None] - {id} == Held(n.links) - {id};
    } else {
      DropBalancedIff(n.base, Held(n.links), n.active, id);
    }
  }

  lemma CleanedNode(n: Node, id: LinkId, acked: bool)
    requires id in n.links && n.links[id].state == Closing && n.links[id].kind == NodeToAdapter
    ensures var l := n.links[id];
            var after := Next(n, OnLink(id, if acked then DoTerminateAck else FireTimer(l.clock, false), 0));
            && id in after.links && after.links == n.links[id := after.links[id]]
            && after.links[id].state == Closing && after.links[id].kind == NodeToAdapter && after.links[id].aaa.None?
            && after.active == (if l.aaa.Some? then AfterRelease(n.active, l.aaa.value) else n.active)
            && after.closeTasks == n.closeTasks + multiset{id} && after.base == n.base
  {
    LinkProgress.AckedCloseIsCleanedUp(n.links[id]);
    LinkProgress.SilentCloseIsCleanedUp(n.links[id], false);
  }

  /**
  Without the condition on link ids it fails: a close task left over from a former link of the
  same id drops a closing link that still holds its address, and the id stays active for good.
  */
  lemma ReusedIdLeaks(n: Node, id: LinkId, reason: TerminateReason)
    requires Conserved(n) && id in n.links && id in n.closeTasks
    requires n.links[id].kind == NodeToAdapter && n.links[id].state == Active && n.links[id].aaa.Some?
    ensures var closing := Next(n, OnLink(id, DoClose(reason, false), 0));
            Conserved(closing) && !Conserved(Next(closing, DeliverCloseDone(id)))
  {
    var (m, _, fx) := InitiateClose(n.links[id], reason, false);
    CloseKeepsAddress(n.links[id], reason, false);
    SameAddressConserved(n, id, m, n.closeTasks);
    var closing := Next(n, OnLink(id, DoClose(reason, false), 0));
    assert closing == n.(links := n.links[id := m], closeTasks := n.closeTasks);
    CloseDoneConservesIff(closing, id);
  }

  /** A new link, keyed and greeted, given the id `choice`. */
  function BroughtUp(n: Node, id: LinkId, choice: nat): Node {
    var added := Next(n, AddLink(id));
    var keying := Next(added, OnLink(id, DoStart, 0));
    var helloing := Next(keying, OnLink(id, DoKeyingDone(true, true), 0));
    Next(helloing, OnLink(id, DoHelloRequest(None, false, false), choice))
  }

  lemma BroughtUpIsActive(n: Node, id: LinkId, choice: nat)
    requires id !in n.links && choice < ID_COUNT
    ensures var after := BroughtUp(n, id, choice);
            && id in after.links && after.links == n.links[id := after.links[id]]
            && after.links[id].kind == NodeToAdapter && after.links[id].state == Active
            && after.links[id].aaa == Some(Encode(n.base, choice))
            && after.active == n.active + {choice} && after.closeTasks == n.closeTasks && after.base == n.base
  {
    var l1 := Start(NewLink(NodeToAdapter)).0;
    var l2 := KeyingDone(l1, true, true).0;
    assert l1.state == Keying && l2.state == Helloing && l2.kind == NodeToAdapter;
    var added := Next(n, AddLink(id));
    var keying := Next(added, OnLink(id, DoStart, 0));
    assert keying == n.(links := n.links[id := l1]);
    var helloing := Next(keying, OnLink(id, DoKeyingDone(true, true), 0));
    assert helloing == n.(links := n.links[id := l2]);
  }

  /** The peer's terminate message, received twice, and the first of the two close tasks. */
  function TerminatedTwice(n: Node, id: LinkId): Node {
    var once := Next(n, OnLink(id, DoTerminateLink, 0));
    Next(Next(once, OnLink(id, DoTerminateLink, 0)), DeliverCloseDone(id))
  }

  lemma TerminatedTwiceLeavesTask(n: Node, id: LinkId)
    requires id in n.links && n.links[id].kind == NodeToAdapter && n.links[id].aaa.Some?
    requires id !in n.closeTasks
    ensures var after := TerminatedTwice(n, id);
            && after.links == n.links - {id} && id in after.closeTasks && after.base == n.base
            && after.active == AfterRelease(n.active, n.links[id].aaa.value)
  {
    var l1 := TerminateLink(n.links[id]).0;
    var l2 := TerminateLink(l1).0;
    var once := Next(n, OnLink(id, DoTerminateLink, 0));
    assert once.links == n.links[id := l1] && once.closeTasks == n.closeTasks + multiset{id};
    var twice := Next(once, OnLink(id, DoTerminateLink, 0));
    assert twice.links == n.links[id := l2] && twice.closeTasks == n.closeTasks + multiset{id} + multiset{id};
  }

  lemma AloneIsConserved(n: Node, id: LinkId, choice: nat)
    requires choice < ID_COUNT && n.links.Keys == {id} && n.active == {choice}
    requires n.links[id].aaa == Some(Encode(n.base, choice))
    ensures Conserved(n)
  {
    AllocateBalanced(n.base, map[id := None], {}, id, choice);
    assert Held(n.links) == map[id := None][id := n.links[id].aaa];
    assert {} + {choice} == n.active;
  }

  /** Such a state arises as soon as an id is taken again while the second of two close tasks is outstanding. */
  lemma ReuseReachesLeak(base: Address, id: LinkId, reason: TerminateReason)
    requires IsAaa(base)
    ensures var up := BroughtUp(Node(base, map[], {}, multiset{}), id, 0);
            var again := BroughtUp(TerminatedTwice(up, id), id, 1);
            var closing := Next(again, OnLink(id, DoClose(reason, false), 0));
            Conserved(again) && !Conserved(Next(closing, DeliverCloseDone(id)))
  {
    var empty := Node(base, map[], {}, multiset{});
    var up := BroughtUp(empty, id, 0);
    BroughtUpIsActive(empty, id, 0);
    TerminatedTwiceLeavesTask(up, id);
    DecodeEncode(base, 0);
    InNetwork(base, 0);
    var free := TerminatedTwice(up, id);
    assert free.active == {} && free.links == map[];
    BroughtUpIsActive(free, id, 1);
    var again := BroughtUp(free, id, 1);
    AloneIsConserved(again, id, 1);
    ReusedIdLeaks(again, id, reason);
  }
}

/**
The endpoint lookup table (adapter/ph/src/adapter_tables.rs) with the transaction manager that
names its pending requests (adapter/ph/src/mgmt/txn_mgr.rs) and the management code that drives
both (adapter/ph/src/adapter_manager_worker.rs, adapter/ph/src/mgmt/adapter.rs).
*/
module LookupTable {
  import opened Bytes
  import opened Classifier
  import Runs

  type Txn = u16

  type Packet = nat

  datatype Pep = Pep(tether: nat)

  datatype Entry = Pending(pkt: Packet, txn: Txn) | Active(pep: Pep)

  // ---------------------------------------------------------------- the table as a value

  datatype Elt = Elt(table: map<FiveTuple, Entry>, pending: map<Txn, FiveTuple>) {

    predicate PendingAs(f: FiveTuple, t: Txn) {
      f in table && table[f].Pending? && table[f].txn == t
    }

    /** The two maps agree: one pending entry per pending transaction, each naming the other. */
    ghost predicate Consistent() {
      forall t, f {:trigger PendingAs(f, t)} :: (t in pending && pending[t] == f) <==> PendingAs(f, t)
    }

    function Insert(f: FiveTuple, pkt: Packet, t: Txn): (Elt, InsertResult) {
      if f in table then (this, AlreadyPending(pkt))
      else if t in pending then (this.(pending := pending[t := f]), DuplicateTransaction(pkt))
      else (Elt(table[f := Pending(pkt, t)], pending[t := f]), Inserted)
    }

    function Activate(f: FiveTuple, pep: Pep): (Elt, ActivateResult) {
      if f !in table then (this, NotFound)
      else if !table[f].Pending? then (this, NotPending)
      else if !(table[f].txn in pending && pending[table[f].txn] == f) then (this, ConsistencyError)
      else (Elt(table[f := Active(pep)], pending - {table[f].txn}), HandedBack(table[f].pkt))
    }

    function Delete(f: FiveTuple): (Elt, RemoveResult) {
      if f !in table then (this, Absent)
      else if table[f].Active? then (this.(table := table - {f}), Removed(table[f]))
      else if !(table[f].txn in pending && pending[table[f].txn] == f) then (this, InconsistentRemove)
      else (Elt(table - {f}, pending - {table[f].txn}), Removed(table[f]))
    }
  }

  datatype InsertResult = Inserted | AlreadyPending(pkt: Packet) | DuplicateTransaction(pkt: Packet)

  datatype ActivateResult = HandedBack(pkt: Packet) | NotFound | NotPending | ConsistencyError

  datatype RemoveResult = Removed(entry: Entry) | Absent | InconsistentRemove

  /** Inserting into a vacant slot keeps the maps in agreement exactly when the transaction is fresh. */
  lemma InsertKeepsConsistency(e: Elt, f: FiveTuple, pkt: Packet, t: Txn)
    requires e.Consistent()
    ensures e.Insert(f, pkt, t).0.Consistent() <==> f in e.table || t !in e.pending
  {
    var e' := e.Insert(f, pkt, t).0;
    if f !in e.table && t in e.pending {
      assert e'.pending[t] == f && !e'.PendingAs(f, t);
    } else if f !in e.table {
      forall u, g
        ensures (u in e'.pending && e'.pending[u] == g) <==> e'.PendingAs(g, u)
      {
        assert (u in e.pending && e.pending[u] == g) <==> e.PendingAs(g, u);
        assert (u in e.pending && e.pending[u] == f) <==> e.PendingAs(f, u);
      }
    }
  }

  /** On agreeing maps both assertions hold, and taking an entry out of pending keeps them agreeing. */
  lemma UnpendKeepsConsistency(e: Elt, f: FiveTuple, pep: Pep)
    requires e.Consistent()
    ensures e.Activate(f, pep).1 != ConsistencyError && e.Delete(f).1 != InconsistentRemove
    ensures e.Activate(f, pep).0.Consistent() && e.Delete(f).0.Consistent()
  {
    var a, d := e.Activate(f, pep).0, e.Delete(f).0;
    if f in e.table && e.table[f].Pending? {
      assert e.PendingAs(f, e.table[f].txn);
    }
    forall u, g
      ensures (u in a.pending && a.pending[u] == g) <==> a.PendingAs(g, u)
      ensures (u in d.pending && d.pending[u] == g) <==> d.PendingAs(g, u)
    {
      assert (u in e.pending && e.pending[u] == g) <==> e.PendingAs(g, u);
    }
  }

  /** A request that is granted: its packet comes back, its flow is active, and nothing else has changed. */
  lemma RequestThenActivate(e: Elt, f: FiveTuple, pkt: Packet, t: Txn, pep: Pep)
    requires f !in e.table && t !in e.pending
    ensures var (inserted, r) := e.Insert(f, pkt, t);
            && r == Inserted && inserted.PendingAs(f, t)
            && inserted.Activate(f, pep) == (Elt(e.table[f := Active(pep)], e.pending), HandedBack(pkt))
  {
    var inserted := e.Insert(f, pkt, t).0;
    assert inserted.pending - {t} == e.pending;
    assert inserted.table[f := Active(pep)] == e.table[f := Active(pep)];
  }

  /** One that is refused: its packet comes back and the table is as before. */
  lemma RequestThenDelete(e: Elt, f: FiveTuple, pkt: Packet, t: Txn)
    requires f !in e.table && t !in e.pending
    ensures e.Insert(f, pkt, t).0.Delete(f) == (e, Removed(Pending(pkt, t)))
  {
    var inserted := e.Insert(f, pkt, t).0;
    assert inserted.pending - {t} == e.pending && inserted.table - {f} == e.table;
  }

  /** Deleting an active flow takes that one out. */
  lemma DeleteActive(e: Elt, f: FiveTuple)
    requires f in e.table && e.table[f].Active?
    ensures e.Delete(f) == (Elt(e.table - {f}, e.pending), Removed(e.table[f]))
  {
  }

  /** What the table refuses, and that it is then unchanged. */
  lemma TableRefuses(e: Elt, f: FiveTuple, pkt: Packet, t: Txn, pep: Pep)
    requires e.Consistent()
    ensures e.Insert(f, pkt, t).1 == Inserted <==> f !in e.table && t !in e.pending
    ensures e.Insert(f, pkt, t) == (e, AlreadyPending(pkt)) <==> f in e.table
    ensures e.Activate(f, pep).1.HandedBack? <==> f in e.table && e.table[f].Pending?
    ensures e.Activate(f, pep) == (e, NotFound) <==> f !in e.table
    ensures e.Activate(f, pep) == (e, NotPending) <==> f in e.table && e.table[f].Active?
    ensures e.Delete(f) == (e, Absent) <==> f !in e.table
  {
    if f in e.table && e.table[f].Pending? {
      assert e.PendingAs(f, e.table[f].txn);
    }
  }

  // ---------------------------------------------------------------- the table object

  class EndpointLookupTable {
    var table: map<FiveTuple, Entry>
    var pending: map<Txn, FiveTuple>

    constructor ()
      ensures Value() == Elt(map[], map[])
    {
      table, pending := map[], map[];
    }

    function Value(): Elt
      reads this
    {
      Elt(table, pending)
    }

    method InsertPending(f: FiveTuple, pkt: Packet, t: Txn) returns (r: InsertResult)
      modifies this
      ensures (Value(), r) == old(Value().Insert(f, pkt, t))
    {
      if f in table {
        return AlreadyPending(pkt);
      }
      var occupied := t in pending;
      pending := pending[t := f];
      if occupied {
        return DuplicateTransaction(pkt);
      }
      table := table[f := Pending(pkt, t)];
      return Inserted;
    }

    method SetActive(f: FiveTuple, pep: Pep) returns (r: ActivateResult)
      requires Value().Consistent()
      modifies this
      ensures (Value(), r) == old(Value().Activate(f, pep)) && Value().Consistent()
    {
      UnpendKeepsConsistency(Value(), f, pep);
      if f !in table {
        return NotFound;
      }
      if !table[f].Pending? {
        return NotPending;
      }
      var was := table[f];
      table := table[f := Active(pep)];
      assert was.txn in pending && pending[was.txn] == f;  // "ELT consistency error"
      pending := pending - {was.txn};
      return HandedBack(was.pkt);
    }

    method Remove(f: FiveTuple) returns (r: RemoveResult)
      requires Value().Consistent()
      modifies this
      ensures (Value(), r) == old(Value().Delete(f)) && Value().Consistent()
    {
      UnpendKeepsConsistency(Value(), f, Pep(0));
      if f !in table {
        return Absent;
      }
      var was := table[f];
      table := table - {f};
      if was.Pending? {
        assert was.txn in pending && pending[was.txn] == f;  // "ELT consistency error"
        pending := pending - {was.txn};
      }
      return Removed(was);
    }

    method Clear()
      modifies this
      ensures Value() == Elt(map[], map[])
    {
      table, pending := map[], map[];
    }
  }

  // ---------------------------------------------------------------- transactions

  /** Reserved ids with the number of handles beyond the first. */
  datatype TxnMgr = TxnMgr(nextFree: Txn, open: map<Txn, nat>) {

    function TryOpen(): (TxnMgr, Option<Txn>) {
      if nextFree in open then (this, None)
      else (TxnMgr((nextFree + 1) % 0x1_0000, open[nextFree := 0]), Some(nextFree))
    }

    /** Clone a handle. */
    function Ref(t: Txn): TxnMgr
      requires t in open
    {
      this.(open := open[t := open[t] + 1])
    }

    /** Drop a handle; the last one frees the id. */
    function Deref(t: Txn): TxnMgr
      requires t in open
    {
      if open[t] > 0 then this.(open := open[t := open[t] - 1]) else this.(open := open - {t})
    }

    ghost function Handles(t: Txn): nat {
      if t in open then open[t] + 1 else 0
    }
  }

  /** A handle more or less counts for its own transaction only. */
  lemma HandlesCount(m: TxnMgr, t: Txn, u: Txn)
    requires t in m.open
    ensures m.Ref(t).Handles(u) == m.Handles(u) + (if u == t then 1 else 0)
    ensures m.Deref(t).Handles(u) == m.Handles(u) - (if u == t then 1 else 0)
  {
  }

  /** Opening takes the next id in turn, and waits rather than skip one that is still open. */
  lemma OpensNext(m: TxnMgr)
    ensures m.TryOpen().1 == (if m.nextFree in m.open then None else Some(m.nextFree))
    ensures m.TryOpen().1.None? ==> m.TryOpen().0 == m
    ensures m.TryOpen().1.Some? ==>
              m.TryOpen().0.nextFree == (if m.nextFree == 0xffff then 0 else m.nextFree + 1)
    ensures m.TryOpen().1.Some? ==> forall u :: m.TryOpen().0.Handles(u) == m.Handles(u) + (if u == m.nextFree then 1 else 0)
  {
  }

  // ---------------------------------------------------------------- runs

  /**
  The table, the transaction manager of its link, the handles of bind requests under way and those
  other tasks hold, and every packet that was handed back so far. `panicked` records a failed
  assertion, a failed unwrap or a closed handle.
  */
  datatype World = World(
    elt: Elt, mgr: TxnMgr, binds: multiset<Txn>, others: multiset<Txn>, handed: seq<Packet>, panicked: bool)

  datatype Op =
    | RequestTether(f: FiveTuple, pkt: Packet)
    | InstallTether(t: Txn, pep: Pep, matches: bool)
    | DenyTether(t: Txn)
    | BindEnds(t: Txn)
    | BindCancelled(t: Txn)
    | ClearTable
    | OpenOther
    | DropOther(t: Txn)

  const EMPTY := World(Elt(map[], map[]), TxnMgr(0, map[]), multiset{}, multiset{}, [], false)

  /** Packets are moved, never copied: a new request brings one that is neither held nor handed back. */
  predicate Fresh(w: World, op: Op) {
    op.RequestTether? ==>
      && op.pkt !in w.handed
      && forall g :: g in w.elt.table && w.elt.table[g].Pending? ==> w.elt.table[g].pkt != op.pkt
  }

  /** Two handles of `t`, in the entry and in the index, are dropped. */
  function DropPair(mgr: TxnMgr, t: Txn): Option<TxnMgr> {
    if t !in mgr.open then None else
    var once := mgr.Deref(t);
    if t !in once.open then None else Some(once.Deref(t))
  }

  /** Dropping the handles of a cleared table. */
  function DropAllPairs(mgr: TxnMgr, pending: map<Txn, FiveTuple>): TxnMgr {
    mgr.(open := map t | t in mgr.open && (t !in pending || mgr.open[t] >= 2)
                  :: if t in pending then mgr.open[t] - 2 else mgr.open[t])
  }

  function Step(w: World, op: Op): World {
    match op
    case RequestTether(f, pkt) =>
      var (mgr, txn) := w.mgr.TryOpen();
      if txn.None? then w else
      var (elt, r) := w.elt.Insert(f, pkt, txn.value);
      (match r
       case Inserted =>
         // the index and the entry clone the handle; the bind task keeps the original
         w.(elt := elt, mgr := mgr.Ref(txn.value).Ref(txn.value), binds := w.binds + multiset{txn.value})
       case AlreadyPending(_) => w.(mgr := mgr.Deref(txn.value))
       case DuplicateTransaction(_) => w.(panicked := true))
    case InstallTether(t, pep, matches) =>
      if t !in w.elt.pending then w
      else if matches then
        var (elt, r) := w.elt.Activate(w.elt.pending[t], pep);
        (match r
         case HandedBack(pkt) =>
           var mgr := DropPair(w.mgr, t);
           if mgr.None? then w.(panicked := true)
           else w.(elt := elt, mgr := mgr.value, handed := w.handed + [pkt])
         case ConsistencyError => w.(panicked := true)
         case _ => w)
      else Unpend(w, t)
    case DenyTether(t) => if t !in w.elt.pending then w else Unpend(w, t)
    case BindEnds(t) => if t !in w.binds then w else DropBind(w, t)
    case BindCancelled(t) =>
      // a cancelled request denies its own tether and unwraps the result
      if t !in w.binds then w
      else if t !in w.elt.pending then DropBind(w.(panicked := true), t)
      else DropBind(Unpend(w, t), t)
    case ClearTable => w.(elt := Elt(map[], map[]), mgr := DropAllPairs(w.mgr, w.elt.pending))
    case OpenOther =>
      var (mgr, txn) := w.mgr.TryOpen();
      if txn.None? then w else w.(mgr := mgr, others := w.others + multiset{txn.value})
    case DropOther(t) =>
      if t !in w.others then w
      else if t !in w.mgr.open then w.(panicked := true)
      else w.(mgr := w.mgr.Deref(t), others := w.others - multiset{t})
  }

  /** A bind request's task is over. */
  function DropBind(w: World, t: Txn): World {
    if t !in w.mgr.open then w.(panicked := true)
    else w.(mgr := w.mgr.Deref(t), binds := w.binds - multiset{t})
  }

  /** Remove the entry of a pending transaction; the caller gets its packet. */
  function Unpend(w: World, t: Txn): World
    requires t in w.elt.pending
  {
    var (elt, r) := w.elt.Delete(w.elt.pending[t]);
    match r
    case Removed(Pending(pkt, _)) =>
      var mgr := DropPair(w.mgr, t);
      if mgr.None? then w.(panicked := true) else w.(elt := elt, mgr := mgr.value, handed := w.handed + [pkt])
    case InconsistentRemove => w.(panicked := true)
    case _ => w
  }

  /** How many handles of `t` exist outside the manager. */
  ghost function Held(w: World, t: Txn): nat {
    w.binds[t] + w.others[t] + if t in w.elt.pending then 2 else 0
  }

  ghost predicate Inv(w: World) {
    && w.elt.Consistent()
    && (forall t :: w.mgr.Handles(t) == Held(w, t))
    && (forall i, j :: 0 <= i < j < |w.handed| ==> w.handed[i] != w.handed[j])
    && (forall f :: f in w.elt.table && w.elt.table[f].Pending? ==> w.elt.table[f].pkt !in w.handed)
    && (forall f, g ::
          f in w.elt.table && g in w.elt.table && f != g && w.elt.table[f].Pending? && w.elt.table[g].Pending? ==>
            w.elt.table[f].pkt != w.elt.table[g].pkt)
  }

  /** The one way to panic: a bind request is cancelled when its transaction is no longer pending. */
  predicate LateCancel(w: World, op: Op) {
    op.BindCancelled? && op.t in w.binds && op.t !in w.elt.pending
  }

  lemma StepKeepsInv(w: World, op: Op)
    requires Inv(w) && Fresh(w, op)
    ensures Inv(Step(w, op))
    ensures Step(w, op).panicked <==> w.panicked || LateCancel(w, op)
  {
    match op
    case RequestTether(f, pkt) => RequestKeepsInv(w, f, pkt);
    case InstallTether(t, pep, matches) =>
      if t in w.elt.pending {
        InstallKeepsInv(w, t, pep);
        UnpendKeepsInv(w, t);
      }
    case DenyTether(t) =>
      if t in w.elt.pending {
        UnpendKeepsInv(w, t);
      }
    case BindEnds(t) =>
      if t in w.binds {
        DropBindKeepsInv(w, t);
      }
    case BindCancelled(t) => CancelKeepsInv(w, t);
    case ClearTable => ClearKeepsInv(w);
    case OpenOther => OpenKeepsInv(w);
    case DropOther(t) => DropOtherKeepsInv(w, t);
  }

  lemma ClearKeepsInv(w: World)
    requires Inv(w)
    ensures Inv(Step(w, ClearTable)) && Step(w, ClearTable).panicked == w.panicked
  {
    var w' := Step(w, ClearTable);
    forall t
      ensures w'.mgr.Handles(t) == Held(w', t)
    {
      assert w.mgr.Handles(t) == Held(w, t);
    }
  }

  lemma OpenKeepsInv(w: World)
    requires Inv(w)
    ensures Inv(Step(w, OpenOther)) && Step(w, OpenOther).panicked == w.panicked
  {
    var w' := Step(w, OpenOther);
    forall t
      ensures w'.mgr.Handles(t) == Held(w', t)
    {
      assert w.mgr.Handles(t) == Held(w, t);
    }
  }

  lemma DropOtherKeepsInv(w: World, t: Txn)
    requires Inv(w)
    ensures Inv(Step(w, DropOther(t))) && Step(w, DropOther(t)).panicked == w.panicked
  {
    assert w.mgr.Handles(t) == Held(w, t);
    var w' := Step(w, DropOther(t));
    forall u
      ensures w'.mgr.Handles(u) == Held(w', u)
    {
      assert w.mgr.Handles(u) == Held(w, u);
    }
  }

  lemma DropBindKeepsInv(w: World, t: Txn)
    requires Inv(w) && t in w.binds
    ensures Inv(DropBind(w, t)) && DropBind(w, t).panicked == w.panicked
  {
    var w' := DropBind(w, t);
    assert w.mgr.Handles(t) == Held(w, t);
    forall u
      ensures w'.mgr.Handles(u) == Held(w', u)
    {
      assert w.mgr.Handles(u) == Held(w, u);
    }
  }

  lemma CancelKeepsInv(w: World, t: Txn)
    requires Inv(w)
    ensures Inv(Step(w, BindCancelled(t)))
    ensures Step(w, BindCancelled(t)).panicked <==> w.panicked || LateCancel(w, BindCancelled(t))
  {
    if t in w.binds {
      if t in w.elt.pending {
        UnpendKeepsInv(w, t);
        DropBindKeepsInv(Unpend(w, t), t);
      } else {
        var late := w.(panicked := true);
        forall u
          ensures late.mgr.Handles(u) == Held(late, u)
        {
          assert w.mgr.Handles(u) == Held(w, u);
        }
        DropBindKeepsInv(late, t);
      }
    }
  }

  lemma RequestKeepsInv(w: World, f: FiveTuple, pkt: Packet)
    requires Inv(w) && Fresh(w, RequestTether(f, pkt))
    ensures Inv(Step(w, RequestTether(f, pkt))) && Step(w, RequestTether(f, pkt)).panicked == w.panicked
  {
    var w' := Step(w, RequestTether(f, pkt));
    var (mgr, txn) := w.mgr.TryOpen();
    if txn.Some? {
      var t := txn.value;
      assert w.mgr.Handles(t) == Held(w, t);
      assert t !in w.elt.pending;
      InsertKeepsConsistency(w.elt, f, pkt, t);
      forall u
        ensures w'.mgr.Handles(u) == Held(w', u)
      {
        assert w.mgr.Handles(u) == Held(w, u);
      }
    }
  }

  lemma UnpendKeepsInv(w: World, t: Txn)
    requires Inv(w) && t in w.elt.pending
    ensures Inv(Unpend(w, t)) && Unpend(w, t).panicked == w.panicked && Unpend(w, t).binds == w.binds
  {
    var f := w.elt.pending[t];
    assert w.elt.PendingAs(f, t);
    UnpendKeepsConsistency(w.elt, f, Pep(0));
    assert w.mgr.Handles(t) == Held(w, t);
    var w' := Unpend(w, t);
    forall u
      ensures w'.mgr.Handles(u) == Held(w', u)
    {
      assert w.mgr.Handles(u) == Held(w, u);
    }
  }

  lemma InstallKeepsInv(w: World, t: Txn, pep: Pep)
    requires Inv(w) && t in w.elt.pending
    ensures var w' := Step(w, InstallTether(t, pep, true)); Inv(w') && w'.panicked == w.panicked
  {
    var f := w.elt.pending[t];
    assert w.elt.PendingAs(f, t);
    UnpendKeepsConsistency(w.elt, f, pep);
    assert w.mgr.Handles(t) == Held(w, t);
    var w' := Step(w, InstallTether(t, pep, true));
    forall u
      ensures w'.mgr.Handles(u) == Held(w', u)
    {
      assert w.mgr.Handles(u) == Held(w, u);
    }
  }

  predicate Timely(w: World, op: Op) {
    Fresh(w, op) && !LateCancel(w, op)
  }

  lemma {:induction false} PanicsIff(w: World, ops: seq<Op>)
    requires Inv(w) && Runs.Legal(Fresh, Step, w, ops)
    ensures Inv(Runs.Run(Step, w, ops))
    ensures Runs.Run(Step, w, ops).panicked <==> w.panicked || !Runs.Legal(Timely, Step, w, ops)
    decreases |ops|
  {
    if ops != [] {
      StepKeepsInv(w, ops[0]);
      PanicsIff(Step(w, ops[0]), ops[1..]);
    }
  }

  /**
  On every run from an empty table the maps agree, handles are balanced and no packet is handed
  back twice. Neither consistency assertion nor the duplicate-transaction panic fires; the run
  panics exactly if some bind request is cancelled when its transaction is no longer pending.
  */
  lemma EveryRunIsConsistent(ops: seq<Op>)
    requires Runs.Legal(Fresh, Step, EMPTY, ops)
    ensures Inv(Runs.Run(Step, EMPTY, ops))
    ensures Runs.Run(Step, EMPTY, ops).panicked <==> !Runs.Legal(Timely, Step, EMPTY, ops)
  {
    assert forall t :: EMPTY.mgr.Handles(t) == Held(EMPTY, t);
    PanicsIff(EMPTY, ops);
  }

  /** Such a run: the table is cleared while a bind request is under way, which is then cancelled. */
  lemma ClearedBindPanics(f: FiveTuple, pkt: Packet)
    ensures var ops := [RequestTether(f, pkt), ClearTable, BindCancelled(0)];
            Runs.Legal(Fresh, Step, EMPTY, ops) && Runs.Run(Step, EMPTY, ops).panicked
  {
    var request, cancel: Op := RequestTether(f, pkt), BindCancelled(0);
    var ops := [request, ClearTable, cancel];
    var requested := Step(EMPTY, request);
    var cleared := Step(requested, ClearTable);
    assert 0 in cleared.binds && 0 !in cleared.elt.pending;
    assert ops[1..] == [ClearTable, cancel] && [ClearTable, cancel][1..] == [cancel] && [cancel][1..] == [];
    assert Runs.Legal(Fresh, Step, cleared, [cancel]);
    assert Runs.Legal(Fresh, Step, requested, [ClearTable, cancel]);
    assert Runs.Run(Step, EMPTY, ops) == Runs.Run(Step, requested, [ClearTable, cancel]);
    assert Runs.Run(Step, requested, [ClearTable, cancel]) == Runs.Run(Step, cleared, [cancel]);
    assert Runs.Run(Step, cleared, [cancel]) == Step(cleared, cancel);
  }

  /** A granted tether makes its flow active, and a refused one vacant; the packet is handed back last. */
  lemma AnswerSettlesFlow(w: World, t: Txn, pep: Pep)
    requires Inv(w) && t in w.elt.pending
    ensures var f := w.elt.pending[t];
            && w.elt.PendingAs(f, t)
            && var (granted, denied) := (Step(w, InstallTether(t, pep, true)), Step(w, DenyTether(t)));
               && f in granted.elt.table && granted.elt.table[f] == Active(pep) && f !in denied.elt.table
               && t !in granted.elt.pending && t !in denied.elt.pending
               && granted.handed == denied.handed == w.handed + [w.elt.table[f].pkt]
               && Step(w, InstallTether(t, pep, false)) == denied
  {
    var f := w.elt.pending[t];
    assert w.elt.PendingAs(f, t);
    assert w.mgr.Handles(t) == Held(w, t);
  }

  /** A request is pending under the transaction it opened, and its task holds a handle of that. */
  lemma RequestPends(w: World, f: FiveTuple, pkt: Packet)
    requires Inv(w) && f !in w.elt.table && w.mgr.nextFree !in w.mgr.open
    ensures var after := Step(w, RequestTether(f, pkt));
            && after.elt.PendingAs(f, w.mgr.nextFree) && after.elt.table[f].pkt == pkt
            && after.binds == w.binds + multiset{w.mgr.nextFree} && after.handed == w.handed
  {
    assert w.mgr.Handles(w.mgr.nextFree) == Held(w, w.mgr.nextFree);
  }

  /** A task that ends gives one handle back, and touches nothing else. */
  lemma TaskGivesHandleBack(w: World, t: Txn)
    requires Inv(w)
    ensures t in w.binds ==>
              var ended := Step(w, BindEnds(t));
              ended == w.(mgr := ended.mgr, binds := w.binds - multiset{t}) && ended.mgr.nextFree == w.mgr.nextFree
    ensures t in w.others ==>
              var ended := Step(w, DropOther(t));
              ended == w.(mgr := ended.mgr, others := w.others - multiset{t}) && ended.mgr.nextFree == w.mgr.nextFree
  {
    assert w.mgr.Handles(t) == Held(w, t);
  }

  /** The same transactions are open, with as many handles each. */
  ghost predicate SameHandles(m: TxnMgr, n: TxnMgr) {
    forall t :: m.Handles(t) == n.Handles(t)
  }

  /**
  The whole life of a tether: requested, granted, and its task over, it leaves an active flow, the
  packet handed back, and every transaction as free as it was; the next one has had its turn.
  */
  lemma TetherLifecycle(w: World, f: FiveTuple, pkt: Packet, pep: Pep)
    requires Inv(w) && Fresh(w, RequestTether(f, pkt)) && f !in w.elt.table && w.mgr.nextFree !in w.mgr.open
    ensures var t := w.mgr.nextFree;
            var done := Step(Step(Step(w, RequestTether(f, pkt)), InstallTether(t, pep, true)), BindEnds(t));
            && done.elt == Elt(w.elt.table[f := Active(pep)], w.elt.pending) && done.handed == w.handed + [pkt]
            && done.binds == w.binds && done.others == w.others && done.panicked == w.panicked
            && SameHandles(done.mgr, w.mgr)
  {
    var t := w.mgr.nextFree;
    var requested := Step(w, RequestTether(f, pkt));
    assert w.mgr.Handles(t) == Held(w, t);
    StepKeepsInv(w, RequestTether(f, pkt));
    RequestThenActivate(w.elt, f, pkt, t, pep);
    var granted := Step(requested, InstallTether(t, pep, true));
    StepKeepsInv(requested, InstallTether(t, pep, true));
    GrantedWorld(requested, t, pep);
    TaskGivesHandleBack(granted, t);
    var done := Step(granted, BindEnds(t));
    StepKeepsInv(granted, BindEnds(t));
    HeldAlike(done, w);
  }

  lemma GrantedWorld(w: World, t: Txn, pep: Pep)
    requires Inv(w) && t in w.elt.pending
    ensures var f := w.elt.pending[t];
            var (elt, r) := w.elt.Activate(f, pep);
            && r.HandedBack?
            && var granted := Step(w, InstallTether(t, pep, true));
               granted == w.(elt := elt, mgr := granted.mgr, handed := w.handed + [r.pkt])
               && granted.mgr.nextFree == w.mgr.nextFree
  {
    var f := w.elt.pending[t];
    assert w.elt.PendingAs(f, t);
    assert w.mgr.Handles(t) == Held(w, t);
  }

  lemma HeldAlike(v: World, w: World)
    requires Inv(v) && Inv(w) && v.binds == w.binds && v.others == w.others && v.elt.pending == w.elt.pending
    ensures SameHandles(v.mgr, w.mgr)
  {
    forall t
      ensures v.mgr.Handles(t) == w.mgr.Handles(t)
    {
      assert Held(v, t) == Held(w, t);
    }
  }

  /** Another task opens the next transaction, and once it is over that is free again. */
  lemma OtherLifecycle(w: World)
    requires Inv(w) && w.mgr.nextFree !in w.mgr.open
    ensures var t := w.mgr.nextFree;
            var taken := Step(w, OpenOther);
            && taken == w.(mgr := taken.mgr, others := w.others + multiset{t}) && t in taken.mgr.open
            && taken.mgr.nextFree == (if t == 0xffff then 0 else t + 1)
            && var done := Step(taken, DropOther(t)); done == w.(mgr := done.mgr) && SameHandles(done.mgr, w.mgr)
  {
    var t := w.mgr.nextFree;
    var taken := Step(w, OpenOther);
    StepKeepsInv(w, OpenOther);
    TaskGivesHandleBack(taken, t);
    var done := Step(taken, DropOther(t));
    StepKeepsInv(taken, DropOther(t));
    assert w.others + multiset{t} - multiset{t} == w.others;
    HeldAlike(done, w);
  }
}

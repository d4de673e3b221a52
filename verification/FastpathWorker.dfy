/**
Buffer ownership in a fastpath worker (adapter/ph/src/fastpath.rs, adapter/ph/src/fastpath_io.rs,
adapter/ph/src/fastpath_worker.rs).

A packet is named by the buffer it owns. What the tables, decryption, the classifier and the
kernel decide is left open (`*`), so each contract covers every path through the operation.
*/
module FastpathWorker {

  type Buffer = nat

  datatype QueuedPacket = QueuedPacket(pkt: Buffer, priority: bool)

  /** A send result; any other I/O error panics in the source. */
  datatype SendResult = Sent | WouldBlock

  // ---------------------------------------------------------------- the egress partition

  predicate Unsent(results: seq<SendResult>, i: nat) {
    i >= |results| || results[i] == WouldBlock
  }

  /** The buffers a queue holds. */
  function Packets(q: seq<QueuedPacket>): (r: seq<Buffer>)
    ensures |r| == |q|
  {
    seq(|q|, i requires 0 <= i < |q| => q[i].pkt)
  }

  /** The unsent priority packets among the first `k`, in their order. */
  function Retained(q: seq<QueuedPacket>, results: seq<SendResult>, k: nat): (r: seq<QueuedPacket>)
    requires k <= |q|
    ensures |r| <= k
    ensures forall i :: 0 <= i < |r| ==> r[i].priority
  {
    if k == 0 then []
    else if Unsent(results, k - 1) && q[k - 1].priority then Retained(q, results, k - 1) + [q[k - 1]]
    else Retained(q, results, k - 1)
  }

  /** Positions of the unsent priority packets: all of them, each once, in ascending order. */
  function KeptPositions(q: seq<QueuedPacket>, results: seq<SendResult>, k: nat): (r: seq<nat>)
    requires k <= |q|
    ensures forall j :: 0 <= j < |r| ==> r[j] < k
    ensures forall i, j :: 0 <= i < j < |r| ==> r[i] < r[j]
    ensures forall i :: 0 <= i < k ==> (i in r <==> Unsent(results, i) && q[i].priority)
  {
    if k == 0 then []
    else if Unsent(results, k - 1) && q[k - 1].priority then KeptPositions(q, results, k - 1) + [k - 1]
    else KeptPositions(q, results, k - 1)
  }

  /** What is retained is what stood at those positions. */
  lemma {:induction false} RetainedStoodThere(q: seq<QueuedPacket>, results: seq<SendResult>, k: nat)
    requires k <= |q|
    ensures var at := KeptPositions(q, results, k);
            |Retained(q, results, k)| == |at| && forall j :: 0 <= j < |at| ==> Retained(q, results, k)[j] == q[at[j]]
  {
    if k > 0 {
      RetainedStoodThere(q, results, k - 1);
    }
  }

  /** How many of the first `k` were sent. */
  function SentCount(results: seq<SendResult>, k: nat): (n: nat)
    ensures n <= k
  {
    if k == 0 then 0 else SentCount(results, k - 1) + if Unsent(results, k - 1) then 0 else 1
  }

  /**
  The partition loop: unsent priority packets are swapped to the front. At step `i` the packet at
  `i` is still the original one, so the result read is its own.
  */
  method PartitionUnsent(queue: seq<QueuedPacket>, results: seq<SendResult>)
    returns (q: seq<QueuedPacket>, retained: nat, dropped: nat)
    requires |results| <= |queue|
    ensures multiset(q) == multiset(queue) && multiset(Packets(q)) == multiset(Packets(queue))
    ensures retained <= |q| && q[..retained] == Retained(queue, results, |queue|)
    ensures SentCount(results, |queue|) + dropped + retained == |queue|
  {
    q, retained, dropped := queue, 0, 0;
    for i := 0 to |queue|
      invariant |q| == |queue| && multiset(q) == multiset(queue)
      invariant multiset(Packets(q)) == multiset(Packets(queue))
      invariant retained <= i && q[..retained] == Retained(queue, results, i)
      invariant q[i..] == queue[i..]
      invariant SentCount(results, i) + dropped + retained == i
    {
      assert q[i] == q[i..][0] == queue[i];
      assert q[i + 1..] == q[i..][1..] == queue[i + 1..];
      if i < |results| && results[i] == Sent {
        continue;
      }
      if q[i].priority {
        SwapToFront(q, i, retained);
        q := q[i := q[retained]][retained := q[i]];
        retained := retained + 1;
      } else {
        dropped := dropped + 1;
      }
    }
  }

  lemma SwapToFront(q: seq<QueuedPacket>, i: nat, j: nat)
    requires j <= i < |q|
    ensures var s := q[i := q[j]][j := q[i]];
            && multiset(s) == multiset(q) && multiset(Packets(s)) == multiset(Packets(q))
            && s[..j + 1] == q[..j] + [q[i]] && s[i + 1..] == q[i + 1..]
  {
    assert Packets(q[i := q[j]][j := q[i]]) == Packets(q)[i := q[j].pkt][j := q[i].pkt];
  }

  function Reversed(s: seq<Buffer>): (r: seq<Buffer>)
    ensures multiset(r) == multiset(s) && |r| == |s|
  {
    if s == [] then [] else
    assert s == [s[0]] + s[1..];
    Reversed(s[1..]) + [s[0]]
  }

  // ---------------------------------------------------------------- the worker

  class Worker {
    var buffers: seq<Buffer>
    var actorInputQ: seq<Buffer>
    var substrateEgressQ: seq<QueuedPacket>
    /** Buffers lent to management through the two-way queues. */
    var lent: multiset<Buffer>

    /** Every buffer the worker owns or has lent, wherever it is. */
    ghost function Inventory(): multiset<Buffer>
      reads this
    {
      multiset(buffers) + multiset(actorInputQ) + multiset(Packets(substrateEgressQ)) + lent
    }

    method DropAndCount(pkt: Buffer)
      modifies this
      ensures Inventory() == old(Inventory()) + multiset{pkt}
      ensures actorInputQ == old(actorInputQ) && substrateEgressQ == old(substrateEgressQ)
    {
      buffers := buffers + [pkt];
    }

    method GetFreshPackets(n: nat) returns (dest: seq<Buffer>)
      modifies this
      ensures Inventory() + multiset(dest) == old(Inventory()) && |dest| <= n
      ensures |dest| == if old(|buffers|) < n then old(|buffers|) else n
    {
      var cut := if |buffers| < n then 0 else |buffers| - n;
      assert buffers == buffers[..cut] + buffers[cut..];
      dest := Reversed(buffers[cut..]);
      buffers := buffers[..cut];
    }

    /** A two-way queue send: the packet is lent, or comes back when the queue is full. */
    method LendOrDrop(pkt: Buffer)
      modifies this
      ensures Inventory() == old(Inventory()) + multiset{pkt}
      ensures actorInputQ == old(actorInputQ) && substrateEgressQ == old(substrateEgressQ)
    {
      if * {
        lent := lent + multiset{pkt};
      } else {
        DropAndCount(pkt);
      }
    }

    method SubstrateIngress(pkt: Buffer)
      modifies this
      ensures Inventory() == old(Inventory()) + multiset{pkt}
      ensures actorInputQ == old(actorInputQ) || actorInputQ == old(actorInputQ) + [pkt]
      ensures || substrateEgressQ == old(substrateEgressQ)
              || substrateEgressQ == old(substrateEgressQ) + [QueuedPacket(pkt, false)]
    {
      if * {
        DropAndCount(pkt);  // no ZPI header, decryption failed
      } else if * {
        LendOrDrop(pkt);  // no link matches: management decides
      } else if * {
        DropAndCount(pkt);  // no base header, or not key management under ZPI 0
      } else if * {
        LendOrDrop(pkt);  // not a transit packet
      } else if * {
        DropAndCount(pkt);  // no per-flow header
      } else {
        Forward(pkt);
      }
    }

    method ActorOutput(pkt: Buffer)
      modifies this
      ensures Inventory() == old(Inventory()) + multiset{pkt}
      ensures actorInputQ == old(actorInputQ) || actorInputQ == old(actorInputQ) + [pkt]
      ensures || substrateEgressQ == old(substrateEgressQ)
              || substrateEgressQ == old(substrateEgressQ) + [QueuedPacket(pkt, false)]
    {
      if * {
        DropAndCount(pkt);  // rejected, fragment, non-IP or TTL expired
      } else {
        ActorOutputPostClassify(pkt, true);
      }
    }

    method ActorOutputPostClassify(pkt: Buffer, allowBindRequest: bool)
      modifies this
      ensures Inventory() == old(Inventory()) + multiset{pkt}
      ensures actorInputQ == old(actorInputQ) || actorInputQ == old(actorInputQ) + [pkt]
      ensures || substrateEgressQ == old(substrateEgressQ)
              || substrateEgressQ == old(substrateEgressQ) + [QueuedPacket(pkt, false)]
    {
      if * {
        DropAndCount(pkt);  // source address not ours
      } else if * {
        if allowBindRequest {  // no table entry
          LendOrDrop(pkt);
        } else {
          DropAndCount(pkt);
        }
      } else if * {
        Forward(pkt);  // active
      } else {
        DropAndCount(pkt);  // pending
      }
    }

    method Forward(pkt: Buffer)
      modifies this
      ensures Inventory() == old(Inventory()) + multiset{pkt}
      ensures actorInputQ == old(actorInputQ) || actorInputQ == old(actorInputQ) + [pkt]
      ensures || substrateEgressQ == old(substrateEgressQ)
              || substrateEgressQ == old(substrateEgressQ) + [QueuedPacket(pkt, false)]
    {
      if * {
        DropAndCount(pkt);  // unknown peer or stream
      } else if * {
        ActorInput(pkt);
      } else {
        SubstrateEgress(pkt, false);
      }
    }

    method ActorInput(pkt: Buffer)
      modifies this
      ensures Inventory() == old(Inventory()) + multiset{pkt}
      ensures substrateEgressQ == old(substrateEgressQ)
      ensures actorInputQ == old(actorInputQ) || actorInputQ == old(actorInputQ) + [pkt]
    {
      if * {
        DropAndCount(pkt);  // structure, unknown stream, not the owner, MAC
      } else {
        actorInputQ := actorInputQ + [pkt];
      }
    }

    method SubstrateEgress(pkt: Buffer, priority: bool)
      modifies this
      ensures Inventory() == old(Inventory()) + multiset{pkt}
      ensures actorInputQ == old(actorInputQ)
      ensures || substrateEgressQ == old(substrateEgressQ)
              || substrateEgressQ == old(substrateEgressQ) + [QueuedPacket(pkt, priority)]
    {
      if * {
        DropAndCount(pkt);  // peer gone or encryption failed
      } else {
        ghost var before := substrateEgressQ;
        substrateEgressQ := substrateEgressQ + [QueuedPacket(pkt, priority)];
        assert Packets(substrateEgressQ) == Packets(before) + [pkt];
      }
    }

    /** The receive loop behind the substrate socket and the TUN: `n` of the fresh packets were filled. */
    method ProcessReceived(batchSize: nat, fromTun: bool)
      modifies this
      ensures Inventory() == old(Inventory())
    {
      var packets := GetFreshPackets(batchSize);
      var n: nat :| n <= |packets|;
      assert packets == packets[..n] + packets[n..];
      ReturnUnused(packets[n..]);
      ProcessFilled(packets[..n], fromTun);
    }

    method ReturnUnused(packets: seq<Buffer>)
      modifies this
      ensures Inventory() == old(Inventory()) + multiset(packets)
    {
      buffers := buffers + Reversed(packets);
    }

    method ProcessFilled(packets: seq<Buffer>, fromTun: bool)
      modifies this
      ensures Inventory() == old(Inventory()) + multiset(packets)
    {
      for i := 0 to |packets|
        invariant Inventory() == old(Inventory()) + multiset(packets[..i])
      {
        assert packets[..i + 1] == packets[..i] + [packets[i]];
        ProcessOneReceived(packets[i], fromTun);
      }
      assert packets[..|packets|] == packets;
    }

    method ProcessOneReceived(pkt: Buffer, fromTun: bool)
      modifies this
      ensures Inventory() == old(Inventory()) + multiset{pkt}
    {
      if * {
        DropAndCount(pkt);  // would block, refused, truncated or not IP
      } else if fromTun {
        ActorOutput(pkt);
      } else {
        SubstrateIngress(pkt);
      }
    }

    /** One packet from a queue into a pooled buffer; `done` when there is no buffer or no packet. */
    method ProcessOneQueued(requeue: bool) returns (done: bool)
      modifies this
      ensures Inventory() == old(Inventory())
      ensures || substrateEgressQ == old(substrateEgressQ)
              || (|substrateEgressQ| == old(|substrateEgressQ|) + 1 && substrateEgressQ[|substrateEgressQ| - 1].priority == !requeue
                  && substrateEgressQ[..old(|substrateEgressQ|)] == old(substrateEgressQ))
    {
      if |buffers| == 0 {
        return true;
      }
      var buf := buffers[|buffers| - 1];
      assert buffers == buffers[..|buffers| - 1] + [buf];
      buffers := buffers[..|buffers| - 1];
      if * {
        buffers := buffers + [buf];  // queue empty
        return true;
      }
      if requeue {
        ActorOutputPostClassify(buf, false);
      } else {
        SubstrateEgress(buf, true);
      }
      return false;
    }

    /** Drain a packet queue into pooled buffers, until it is empty or the limit is reached. */
    method BatchProcessPacketQueue(limit: nat, requeue: bool)
      modifies this
      ensures Inventory() == old(Inventory())
      ensures old(substrateEgressQ) <= substrateEgressQ && |substrateEgressQ| <= old(|substrateEgressQ|) + limit
      ensures forall i :: old(|substrateEgressQ|) <= i < |substrateEgressQ| ==> substrateEgressQ[i].priority == !requeue
    {
      for n := 0 to limit
        invariant Inventory() == old(Inventory())
        invariant old(substrateEgressQ) <= substrateEgressQ && |substrateEgressQ| <= old(|substrateEgressQ|) + n
        invariant forall i :: old(|substrateEgressQ|) <= i < |substrateEgressQ| ==> substrateEgressQ[i].priority == !requeue
      {
        var done := ProcessOneQueued(requeue);
        if done {
          break;
        }
      }
    }

    method ProcessActorInputQueue()
      modifies this
      ensures Inventory() == old(Inventory())
      ensures actorInputQ == [] && substrateEgressQ == old(substrateEgressQ)
    {
      buffers := buffers + actorInputQ;
      actorInputQ := [];
    }

    method ProcessSubstrateEgressQueue(results: seq<SendResult>)
      requires |results| <= |substrateEgressQ|
      modifies this
      ensures Inventory() == old(Inventory()) && actorInputQ == old(actorInputQ)
      ensures substrateEgressQ == Retained(old(substrateEgressQ), results, old(|substrateEgressQ|))
    {
      var q, retained, dropped := PartitionUnsent(substrateEgressQ, results);
      assert Packets(q) == Packets(q[..retained]) + Packets(q[retained..]);
      buffers := buffers + Packets(q[retained..]);
      substrateEgressQ := q[..retained];
    }

    /** After this the actor queue is empty and only priority packets wait for the substrate. */
    method ProcessOutQueues(results: seq<SendResult>)
      requires |results| <= |substrateEgressQ|
      modifies this
      ensures Inventory() == old(Inventory())
      ensures actorInputQ == [] && forall i :: 0 <= i < |substrateEgressQ| ==> substrateEgressQ[i].priority
    {
      ProcessActorInputQueue();
      ProcessSubstrateEgressQueue(results);
    }

    /** Management hands lent buffers back. */
    method ReclaimReturns(returned: seq<Buffer>)
      requires multiset(returned) <= lent
      modifies this
      ensures Inventory() == old(Inventory())
    {
      lent := lent - multiset(returned);
      buffers := buffers + returned;
    }

    /** Any number of poll cycles, in any mix of ready sources: no buffer is lost or duplicated. */
    method Run(cycles: nat, batchSize: nat)
      modifies this
      ensures Inventory() == old(Inventory())
    {
      for cycle := 0 to cycles
        invariant Inventory() == old(Inventory())
      {
        var results := TrySendBatch(|substrateEgressQ|);
        ProcessOutQueues(results);
        if * {
          var returned := TryRecvReturns(lent);
          ReclaimReturns(returned);
        }
        if * {
          results := TrySendBatch(|substrateEgressQ|);
          ProcessSubstrateEgressQueue(results);
        }
        if * {
          BatchProcessPacketQueue(batchSize, false);
        }
        if * {
          BatchProcessPacketQueue(batchSize, true);
        }
        if * {
          ProcessReceived(batchSize, true);
        }
        if * {
          ProcessReceived(batchSize, false);
        }
      }
    }
  }

  /** The kernel's answer to a batch send: at most one result per packet. */
  method TrySendBatch(queued: nat) returns (results: seq<SendResult>)
    ensures |results| <= queued
  {
    results := *;
    if |results| > queued {
      results := results[..queued];
    }
  }

  /** Some of the buffers that are lent. */
  method TryRecvReturns(lent: multiset<Buffer>) returns (returned: seq<Buffer>)
    ensures multiset(returned) <= lent
  {
    returned := *;
    if !(multiset(returned) <= lent) {
      returned := [];
    }
  }
}

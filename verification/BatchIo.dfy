/**
The io_uring batch engine (adapter/ph/src/batch_io.rs): turning completions, which arrive in any
order, into a result vector indexed by operation.
*/
module BatchIo {
  import opened Bytes

  const EAGAIN: int := 11
  const EWOULDBLOCK: int := 11

  /** A completion queue entry: the operation's index as user data, and its result code. */
  datatype Completion = Completion(userData: nat, result: int)

  datatype IoResult<+R> = Done(value: R) | Failed(errno: int)

  /** Every submitted operation completed exactly once. */
  ghost predicate CompletesAll(completions: seq<Completion>, submitted: nat) {
    && |completions| == submitted
    && (forall i :: 0 <= i < |completions| ==> completions[i].userData < submitted)
    && (forall i, j :: 0 <= i < j < |completions| ==> completions[i].userData != completions[j].userData)
  }

  /** Operation `idx` completed with `result`. */
  predicate Reports(completions: seq<Completion>, idx: nat, result: int) {
    Completion(idx, result) in completions
  }

  /** Operation `idx` completed and would not have blocked. */
  ghost predicate Finished(completions: seq<Completion>, idx: nat) {
    exists r :: r != -EAGAIN && Reports(completions, idx, r)
  }

  /** The entry an operation's own result code and state determine. */
  function Entry<S, R>(process: (nat, S, nat) -> R, states: seq<S>, idx: nat, result: int): IoResult<R>
    requires idx < |states|
  {
    if result < 0 then Failed(-result) else Done(process(idx, states[idx], result))
  }

  /**
  The result vector, said without an order of completions: it ends with the last operation that
  did not return EAGAIN, each entry up to there is that operation's own result, and an operation
  that returned EAGAIN or has not completed reads as EWOULDBLOCK.
  */
  ghost predicate IsResultVector<S(!new), R(!new)>(
    completions: seq<Completion>, process: (nat, S, nat) -> R, states: seq<S>, results: seq<IoResult<R>>)
  {
    && |results| <= |states|
    && (results != [] ==> Finished(completions, |results| - 1))
    && (forall c :: c in completions && c.result != -EAGAIN ==>
          && c.userData < |results|
          && results[c.userData] == Entry(process, states, c.userData, c.result))
    && (forall i :: 0 <= i < |results| && !Finished(completions, i) ==>
          results[i] == Failed(EWOULDBLOCK))
  }

  /** Write entry `idx` behind `base`, first filling what is skipped over with EWOULDBLOCK. */
  function Stored<R>(results: seq<IoResult<R>>, base: nat, idx: nat, value: IoResult<R>): (r: seq<IoResult<R>>)
    requires base <= |results|
    ensures |r| == (if idx < |results| - base then |results| else base + idx + 1)
    ensures r[..base] == results[..base] && r[base..][idx] == value
    ensures forall i :: 0 <= i < |r| - base && i != idx ==>
              r[base..][i] == if i < |results| - base then results[base..][i] else Failed(EWOULDBLOCK)
  {
    var grown :=
      if idx >= |results| - base then results + seq(base + idx + 1 - |results|, _ => Failed(EWOULDBLOCK)) else results;
    grown[base + idx := value]
  }

  method DoBatchOp<S(!new), R(!new)>(
    completions: seq<Completion>, process: (nat, S, nat) -> R, states: seq<S>, before: seq<IoResult<R>>)
    returns (results: seq<IoResult<R>>, count: nat)
    requires CompletesAll(completions, |states|)
    ensures |results| == |before| + count && results[..|before|] == before
    ensures IsResultVector(completions, process, states, results[|before|..])
  {
    var base := |before|;
    results := before;
    var slab: seq<Option<S>> := seq(|states|, i requires 0 <= i < |states| => Some(states[i]));
    for k := 0 to |completions|
      invariant base <= |results| && results[..base] == before
      invariant IsResultVector(completions[..k], process, states, results[base..])
      invariant |slab| == |states|
      invariant forall j :: k <= j < |completions| ==>
                  slab[completions[j].userData] == Some(states[completions[j].userData])
    {
      var entry := completions[k];
      ghost var old' := results[base..];
      ghost var done := completions[..k];
      assert completions[..k + 1] == done + [entry];
      if entry.result == -EAGAIN {
        StillVector(done, entry, process, states, old');
      } else {
        var idx := entry.userData;
        var value;
        if entry.result < 0 {
          value := Failed(-entry.result);
        } else {
          assert slab[idx].Some?;
          value := Done(process(idx, slab[idx].value, entry.result));
          slab := slab[idx := None];
        }
        results := Stored(results, base, idx, value);
        Extended(done, entry, process, states, old', results[base..]);
      }
    }
    assert completions[..|completions|] == completions;
    count := |results| - base;
  }

  /** A would-block completion leaves the vector as it is. */
  lemma StillVector<S(!new), R(!new)>(
    done: seq<Completion>, entry: Completion, process: (nat, S, nat) -> R, states: seq<S>, results: seq<IoResult<R>>)
    requires IsResultVector(done, process, states, results)
    requires entry.result == -EAGAIN
    ensures IsResultVector(done + [entry], process, states, results)
  {
    if results != [] {
      var r :| r != -EAGAIN && Reports(done, |results| - 1, r);
      assert Reports(done + [entry], |results| - 1, r);
    }
    forall i | 0 <= i < |results| && !Finished(done + [entry], i)
      ensures results[i] == Failed(EWOULDBLOCK)
    {
      assert forall r :: Reports(done, i, r) ==> Reports(done + [entry], i, r);
    }
  }

  /** Any other completion fills its own entry, growing the vector with gaps if it must. */
  lemma Extended<S(!new), R(!new)>(
    done: seq<Completion>, entry: Completion, process: (nat, S, nat) -> R, states: seq<S>,
    before: seq<IoResult<R>>, after: seq<IoResult<R>>)
    requires IsResultVector(done, process, states, before)
    requires entry.result != -EAGAIN && entry.userData < |states|
    requires forall c :: c in done ==> c.userData != entry.userData
    requires |after| == if entry.userData < |before| then |before| else entry.userData + 1
    requires after[entry.userData] == Entry(process, states, entry.userData, entry.result)
    requires forall i :: 0 <= i < |after| && i != entry.userData ==>
               after[i] == if i < |before| then before[i] else Failed(EWOULDBLOCK)
    ensures IsResultVector(done + [entry], process, states, after)
  {
    var all := done + [entry];
    if entry.userData < |before| {
      var r :| r != -EAGAIN && Reports(done, |before| - 1, r);
      assert Reports(all, |after| - 1, r);
    } else {
      assert Reports(all, |after| - 1, entry.result);
    }
    forall i | 0 <= i < |after| && !Finished(all, i)
      ensures after[i] == Failed(EWOULDBLOCK)
    {
      assert i != entry.userData by { assert Reports(all, entry.userData, entry.result); }
      assert forall r :: Reports(done, i, r) ==> Reports(all, i, r);
    }
  }

  /**
  The order of completions does not matter: any two orders of the same completions give the same
  result vector.
  */
  lemma OrderIrrelevant<S(!new), R(!new)>(
    a: seq<Completion>, b: seq<Completion>, process: (nat, S, nat) -> R, states: seq<S>,
    x: seq<IoResult<R>>, y: seq<IoResult<R>>)
    requires multiset(a) == multiset(b)
    requires IsResultVector(a, process, states, x) && IsResultVector(b, process, states, y)
    ensures x == y
  {
    SameMembers(a, b);
    NoLonger(a, b, process, states, x, y);
    NoLonger(b, a, process, states, y, x);
    forall i | 0 <= i < |x|
      ensures x[i] == y[i]
    {
      if r :| r != -EAGAIN && Reports(a, i, r) {
        assert Completion(i, r) in a && Completion(i, r) in b;
      } else {
        assert forall r :: Reports(b, i, r) ==> Reports(a, i, r);
      }
    }
  }

  lemma SameMembers(a: seq<Completion>, b: seq<Completion>)
    requires multiset(a) == multiset(b)
    ensures forall c :: c in a <==> c in b
  {
    forall c
      ensures c in a <==> c in b
    {
      assert c in a <==> c in multiset(a);
      assert c in b <==> c in multiset(b);
    }
  }

  lemma NoLonger<S(!new), R(!new)>(
    a: seq<Completion>, b: seq<Completion>, process: (nat, S, nat) -> R, states: seq<S>,
    x: seq<IoResult<R>>, y: seq<IoResult<R>>)
    requires forall c :: c in a <==> c in b
    requires IsResultVector(a, process, states, x) && IsResultVector(b, process, states, y)
    ensures |x| <= |y|
  {
    if x != [] {
      var r :| r != -EAGAIN && Reports(a, |x| - 1, r);
      assert Completion(|x| - 1, r) in b;
    }
  }

  /** An entry is a failure exactly when the result is negative, and carries the number the kernel negated. */
  lemma EntryReports<S, R>(process: (nat, S, nat) -> R, states: seq<S>, idx: nat, result: int)
    requires idx < |states|
    ensures var entry := Entry(process, states, idx, result);
            && (entry.Failed? <==> result < 0)
            && (entry.Failed? ==> entry.errno == -result)
            && (entry.Done? ==> entry.value == process(idx, states[idx], result))
  {
  }
}

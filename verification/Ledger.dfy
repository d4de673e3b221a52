/** Sums of what each entry of a list brings. */
module Ledger {

  function Total<T>(parts: seq<multiset<T>>): multiset<T> {
    TotalUpTo(parts, |parts|)
  }

  function TotalUpTo<T>(parts: seq<multiset<T>>, n: nat): multiset<T>
    requires n <= |parts|
  {
    if n == 0 then multiset{} else TotalUpTo(parts, n - 1) + parts[n - 1]
  }

  lemma {:induction false} SamePrefix<T>(a: seq<multiset<T>>, b: seq<multiset<T>>, n: nat)
    requires n <= |a| && n <= |b| && forall i :: 0 <= i < n ==> a[i] == b[i]
    ensures TotalUpTo(a, n) == TotalUpTo(b, n)
  {
    if n > 0 {
      SamePrefix(a, b, n - 1);
    }
  }

  lemma Reorder<T>(a: multiset<T>, b: multiset<T>, c: multiset<T>)
    ensures a + b + c == a + c + b
  {
  }

  /** Filling an empty entry adds what it is filled with. */
  lemma {:induction false} FilledUpTo<T>(parts: seq<multiset<T>>, t: nat, part: multiset<T>, n: nat)
    requires t < n <= |parts| && parts[t] == multiset{}
    ensures TotalUpTo(parts[t := part], n) == TotalUpTo(parts, n) + part
  {
    if t == n - 1 {
      SamePrefix(parts[t := part], parts, t);
      assert TotalUpTo(parts, t) + multiset{} == TotalUpTo(parts, t);
    } else {
      FilledUpTo(parts, t, part, n - 1);
      Reorder(TotalUpTo(parts, n - 1), part, parts[n - 1]);
    }
  }

  lemma Filled<T>(parts: seq<multiset<T>>, t: nat, part: multiset<T>)
    requires t < |parts| && parts[t] == multiset{}
    ensures Total(parts[t := part]) == Total(parts) + part
  {
    FilledUpTo(parts, t, part, |parts|);
  }

  /** An empty entry more adds nothing. */
  lemma Appended<T>(parts: seq<multiset<T>>)
    ensures Total(parts + [multiset{}]) == Total(parts)
  {
    SamePrefix(parts + [multiset{}], parts, |parts|);
    assert Total(parts) + multiset{} == Total(parts);
  }
}

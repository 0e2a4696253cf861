// Insertion into a sequence: the step every insertion sort here is made of.
module Insertion {
  import opened Table

  function InsertAt<T>(s: seq<T>, p: nat, x: T): (r: seq<T>)
    requires p <= |s|
    ensures |r| == |s| + 1 && r[p] == x
    ensures forall k :: 0 <= k < p ==> r[k] == s[k]
    ensures forall k :: p < k <= |s| ==> r[k] == s[k - 1]
  {
    s[..p] + [x] + s[p..]
  }

  // Nothing else comes in, nothing is lost, and repetitions are kept.
  lemma InsertKeeps<T>(s: seq<T>, p: nat, x: T)
    requires p <= |s|
    ensures forall y :: y in InsertAt(s, p, x) <==> y == x || y in s
    ensures multiset(InsertAt(s, p, x)) == multiset(s + [x])
  {
    var r := InsertAt(s, p, x);
    assert s == s[..p] + s[p..];
    assert multiset(r) == multiset(s[..p]) + multiset{x} + multiset(s[p..]) == multiset(s + [x]);
    forall y ensures y in r <==> y == x || y in s {
      assert y in multiset(r) <==> y in multiset(s + [x]);
    }
  }

  // p lists every number below n once.
  ghost predicate Permutes(p: seq<nat>, n: nat) {
    && |p| == n
    && (forall i :: 0 <= i < n ==> p[i] < n)
    && Distinct(p)
    && (forall r :: 0 <= r < n ==> r in p)
  }

  lemma InsertPermutes(perm: seq<nat>, i: nat, p: nat)
    requires Permutes(perm, i) && p <= |perm|
    ensures Permutes(InsertAt(perm, p, i), i + 1)
  {
    hide InsertAt;
    var q := InsertAt(perm, p, i);
    forall r | 0 <= r < i + 1 ensures r in q {
      if r == i {
        assert q[p] == i;
      } else {
        assert r in perm;
        var k :| 0 <= k < |perm| && perm[k] == r;
        assert q[if k < p then k else k + 1] == r;
      }
    }
  }
}

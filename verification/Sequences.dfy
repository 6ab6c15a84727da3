/** Facts about sequences and multisets that several modules need. */
module Sequences {

  function Without<T>(s: seq<T>, k: nat): seq<T>
    requires k < |s|
  {
    s[..k] + s[k + 1..]
  }

  lemma MultisetWithout<T>(s: seq<T>, k: nat)
    requires k < |s|
    ensures multiset(s) == multiset(Without(s, k)) + multiset{s[k]}
  {
    assert s == s[..k] + [s[k]] + s[k + 1..];
  }

  /** Where the last element of one permutation stands in the other. */
  lemma LastInPermutation<T>(s: seq<T>, t: seq<T>) returns (k: nat)
    requires multiset(s) == multiset(t) && s != []
    ensures k < |t| && t[k] == s[|s| - 1]
    ensures multiset(s[..|s| - 1]) == multiset(Without(t, k))
  {
    var n := |s| - 1;
    assert s[n] in multiset(t);
    k :| 0 <= k < |t| && t[k] == s[n];
    MultisetWithout(t, k);
    MultisetWithout(s, n);
    assert Without(s, n) == s[..n];
    assert multiset(s[..n]) == multiset(s) - multiset{s[n]};
    assert multiset(Without(t, k)) == multiset(t) - multiset{t[k]};
  }

  lemma DropSameLast<T>(s: seq<T>, t: seq<T>)
    requires multiset(s) == multiset(t) && s != [] && t != [] && s[|s| - 1] == t[|t| - 1]
    ensures multiset(s[..|s| - 1]) == multiset(t[..|t| - 1])
    ensures multiset(s[..|s| - 1]) <= multiset(s)
  {
    var m, n := |s| - 1, |t| - 1;
    MultisetWithout(s, m);
    MultisetWithout(t, n);
    assert Without(s, m) == s[..m] && Without(t, n) == t[..n];
    assert multiset(s[..m]) == multiset(s) - multiset{s[m]};
    assert multiset(t[..n]) == multiset(t) - multiset{t[n]};
  }

  /** All that the elements of a sequence contribute, whatever their order. */
  function Collect<A, B>(f: A -> multiset<B>, s: seq<A>): multiset<B> {
    if s == [] then multiset{} else Collect(f, s[..|s| - 1]) + f(s[|s| - 1])
  }

  lemma {:induction false} CollectWithout<A, B>(f: A -> multiset<B>, s: seq<A>, k: nat)
    requires k < |s|
    ensures Collect(f, s) == Collect(f, Without(s, k)) + f(s[k])
    decreases |s|
  {
    var n := |s| - 1;
    var t := Without(s, k);
    if k == n {
      assert t == s[..n];
    } else {
      CollectWithout(f, s[..n], k);
      assert t[..n - 1] == Without(s[..n], k);
      assert t[n - 1] == s[n];
    }
  }

  lemma {:induction false} CollectPermutation<A, B>(f: A -> multiset<B>, s: seq<A>, t: seq<A>)
    requires multiset(s) == multiset(t)
    ensures Collect(f, s) == Collect(f, t)
    decreases |s|
  {
    if s == [] {
      assert |multiset(t)| == 0;
      assert t == [];
    } else {
      var k := LastInPermutation(s, t);
      CollectPermutation(f, s[..|s| - 1], Without(t, k));
      CollectWithout(f, t, k);
    }
  }
}

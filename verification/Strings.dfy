/** Go's order on strings, and sorting by it. */
module Strings {

  predicate Less(a: string, b: string) {
    b != "" && (a == "" || a[0] < b[0] || (a[0] == b[0] && Less(a[1..], b[1..])))
  }

  /** The strings agree up to `k`, where the first one ends or has the lower character. */
  predicate DiffersAt(a: string, b: string, k: nat) {
    && k <= |a| && k < |b| && a[..k] == b[..k]
    && (k == |a| || a[k] < b[k])
  }

  /** The order of their bytes in UTF-8, which is that of their characters. */
  lemma {:induction false} LessIff(a: string, b: string)
    ensures Less(a, b) <==> exists k: nat :: DiffersAt(a, b, k)
    decreases |a|
  {
    if b != "" && (a == "" || a[0] < b[0]) {
      assert DiffersAt(a, b, 0);
    } else if a != "" && b != "" && a[0] == b[0] {
      LessIff(a[1..], b[1..]);
      assert a == [a[0]] + a[1..] && b == [b[0]] + b[1..];
      if Less(a[1..], b[1..]) {
        var k: nat :| DiffersAt(a[1..], b[1..], k);
        assert a[..k + 1] == [a[0]] + a[1..][..k] && b[..k + 1] == [b[0]] + b[1..][..k];
        assert DiffersAt(a, b, k + 1);
      }
      if k: nat :| DiffersAt(a, b, k) {
        assert k > 0;
        assert a[1..][..k - 1] == a[..k][1..] && b[1..][..k - 1] == b[..k][1..];
        assert DiffersAt(a[1..], b[1..], k - 1);
      }
    } else {
      assert forall k: nat :: DiffersAt(a, b, k) ==> k == 0 || (a[..k][0] == a[0] && b[..k][0] == b[0]);
    }
  }

  lemma {:induction false} LessTransitive(a: string, b: string, c: string)
    requires Less(a, b) && Less(b, c)
    ensures Less(a, c)
  {
    if a != "" && a[0] == b[0] == c[0] {
      LessTransitive(a[1..], b[1..], c[1..]);
    }
  }

  lemma {:induction false} LessIrreflexive(a: string)
    ensures !Less(a, a)
  {
    if a != "" {
      LessIrreflexive(a[1..]);
    }
  }

  lemma {:induction false} LessAsymmetric(a: string, b: string)
    requires Less(a, b)
    ensures !Less(b, a)
  {
    if a != "" && a[0] == b[0] {
      LessAsymmetric(a[1..], b[1..]);
    }
  }

  lemma {:induction false} LessTotal(a: string, b: string)
    requires a != b
    ensures Less(a, b) || Less(b, a)
  {
    if a != "" && b != "" && a[0] == b[0] {
      assert a == [a[0]] + a[1..] && b == [b[0]] + b[1..];
      LessTotal(a[1..], b[1..]);
    }
  }

  predicate Ascending(s: seq<string>) {
    forall i :: 0 <= i < |s| - 1 ==> !Less(s[i + 1], s[i])
  }

  predicate AscendingBy<T>(key: T -> string, s: seq<T>) {
    forall i :: 0 <= i < |s| - 1 ==> !Less(key(s[i + 1]), key(s[i]))
  }

  lemma AscendingCons<T>(key: T -> string, x: T, s: seq<T>)
    requires AscendingBy(key, s) && (s != [] ==> !Less(key(s[0]), key(x)))
    ensures AscendingBy(key, [x] + s)
  {
    var r := [x] + s;
    forall i | 0 <= i < |r| - 1
      ensures !Less(key(r[i + 1]), key(r[i]))
    {
      if i > 0 {
        assert r[i + 1] == s[i] && r[i] == s[i - 1];
        assert !Less(key(s[i - 1 + 1]), key(s[i - 1]));
      }
    }
  }

  lemma AscendingTail<T>(key: T -> string, s: seq<T>)
    requires s != [] && AscendingBy(key, s)
    ensures AscendingBy(key, s[1..])
    ensures |s| > 1 ==> !Less(key(s[1]), key(s[0]))
  {
    forall i | 0 <= i < |s| - 2
      ensures !Less(key(s[1..][i + 1]), key(s[1..][i]))
    {
      assert !Less(key(s[i + 1 + 1]), key(s[i + 1]));
    }
  }

  lemma InsertedBehind<T>(r: seq<T>, s: seq<T>, x: T)
    requires s != [] && multiset(r) == multiset(s[1..] + [x])
    ensures multiset([s[0]] + r) == multiset(s + [x])
  {
    assert s + [x] == [s[0]] + (s[1..] + [x]);
  }

  function InsertBy<T>(key: T -> string, x: T, s: seq<T>): (r: seq<T>)
    requires AscendingBy(key, s)
    ensures multiset(r) == multiset(s + [x]) && AscendingBy(key, r)
    ensures r[0] == x || (s != [] && r[0] == s[0])
  {
    hide Less;
    if s == [] then [x]
    else if Less(key(x), key(s[0])) then
      LessAsymmetric(key(x), key(s[0]));
      AscendingCons(key, x, s);
      [x] + s
    else
      AscendingTail(key, s);
      var rest := InsertBy(key, x, s[1..]);
      InsertedBehind(rest, s, x);
      AscendingCons(key, s[0], rest);
      [s[0]] + rest
  }

  /** Stands for sort.Slice by a text. */
  function SortBy<T(!new)>(key: T -> string, s: seq<T>): (r: seq<T>)
    ensures multiset(r) == multiset(s) && AscendingBy(key, r)
    ensures forall x :: x in r <==> x in s
  {
    if s == [] then []
    else
      var n := |s| - 1;
      assert s[..n] + [s[n]] == s;
      var rest := SortBy(key, s[..n]);
      SameElements(InsertBy(key, s[n], rest), rest, s[n], s);
      InsertBy(key, s[n], rest)
  }

  lemma SameElements<T>(r: seq<T>, rest: seq<T>, x: T, s: seq<T>)
    requires multiset(r) == multiset(rest + [x]) && s != [] && multiset(rest) == multiset(s[..|s| - 1]) && x == s[|s| - 1]
    ensures multiset(r) == multiset(s) && forall y :: y in r <==> y in s
  {
    assert s == s[..|s| - 1] + [x];
    assert forall y :: y in r <==> y in multiset(r);
    assert forall y :: y in s <==> y in multiset(s);
  }

  function Itself(s: string): string {
    s
  }

  /** Stands for sort.Strings. */
  function Sort(s: seq<string>): (r: seq<string>)
    ensures multiset(r) == multiset(s) && Ascending(r)
    ensures forall x :: x in r <==> x in s
  {
    SortBy(Itself, s)
  }

  /** `len` of a Go string: the bytes of its UTF-8 encoding (section 3 of RFC 3629). */
  function Bytes(s: string): nat {
    if s == "" then 0
    else
      var c := s[|s| - 1] as int;
      Bytes(s[..|s| - 1]) + if c < 0x80 then 1 else if c < 0x800 then 2 else if c < 0x1_0000 then 3 else 4
  }
}

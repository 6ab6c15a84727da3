/** What the split promises: exactness, quota, fairness, determinism and optimality,
    for every result that Allocate may return. */
module AllocationProperties {
  import opened Money
  import opened Sequences
  import opened Allocation
  import Strings

  function CentsOf(r: seq<Allotment>): seq<int> {
    seq(|r|, i requires 0 <= i < |r| => (r[i].amount * 100.0).Floor)
  }

  function UnitsOf(r: seq<Allotment>): seq<Unit> {
    seq(|r|, i requires 0 <= i < |r| => r[i].unit)
  }

  function SumInts(c: seq<int>): int {
    if c == [] then 0 else SumInts(c[..|c| - 1]) + c[|c| - 1]
  }

  function SumAmounts(r: seq<Allotment>): Amount {
    if r == [] then 0.0 else SumAmounts(r[..|r| - 1]) + r[|r| - 1].amount
  }

  function PositiveShares(units: seq<Unit>): seq<Unit> {
    if units == [] then []
    else PositiveShares(units[..|units| - 1]) + if units[|units| - 1].share == 0 then [] else [units[|units| - 1]]
  }

  /** The arithmetic facts behind a result. */
  lemma Facts(total: int, units: seq<Unit>, s: seq<Portion>, r: seq<Allotment>) returns (left: int)
    requires IsSplit(total, units, s, r)
    ensures ExactPortions(total, SumShares(units), s) && SumPortionShares(s) == SumShares(units)
    ensures left == total - SumCents(s) && 0 <= left <= NonZero(s) <= |s|
    ensures forall i :: 0 <= i < left ==> s[i].remainder > 0
    ensures |CentsOf(r)| == |s| && forall i :: 0 <= i < |s| ==> CentsOf(r)[i] == AwardedCents(s, left, i)
  {
    left := total - SumCents(s);
    OrderingIsExact(total, units, s);
    LeftoverBounds(total, SumShares(units), s);
    forall i | 0 <= i < left
      ensures s[i].remainder > 0
    {
      WinnersHaveRemainders(total, SumShares(units), s, i);
    }
    forall i | 0 <= i < |s|
      ensures CentsOf(r)[i] == AwardedCents(s, left, i)
    {
      assert r[i].amount * 100.0 == AwardedCents(s, left, i) as real;
    }
  }

  // ---- Exactness ----

  lemma {:induction false} AwardedSum(s: seq<Portion>, left: int, k: nat)
    requires 0 <= left && k <= |s|
    ensures SumAmounts(Awarded(s, left)[..k]) == Cents(SumCents(s[..k]) + if left <= k then left else k)
    decreases k
  {
    var a := Awarded(s, left);
    if k > 0 {
      AwardedSum(s, left, k - 1);
      assert a[..k][..k - 1] == a[..k - 1];
      assert s[..k][..k - 1] == s[..k - 1];
    }
  }

  /** The allocated amounts sum to the total, to the cent. */
  lemma SplitIsExact(total: int, units: seq<Unit>, s: seq<Portion>, r: seq<Allotment>)
    requires IsSplit(total, units, s, r)
    ensures SumAmounts(r) == Cents(total)
  {
    hide SumCents;
    var left := Facts(total, units, s, r);
    AwardedSum(s, left, |s|);
    assert s[..|s|] == s && r[..|s|] == r;
  }

  // ---- Quota and 64-bit ranges ----

  lemma QuotaArithmetic(shares: int, total: int, share: int, q: int, rem: int, won: bool)
    requires total >= 0 && 0 < share <= shares && 0 <= rem < shares && q >= 0 && (won ==> rem > 0)
    requires shares * q + rem == total * share
    ensures var c := q + if won then 1 else 0;
            shares * (c - 1) < total * share < shares * (c + 1) && 0 <= c <= total
  {
    assert shares * (q + 1) == shares * q + shares && shares * (q + 2) == shares * q + 2 * shares;
    assert shares * (q - 1) == shares * q - shares;
    assert total * share <= total * shares;
    MulLess(shares, total, q);
    MulLess(shares, total - 1, q);
    assert shares * (total - 1) == total * shares - shares;
  }

  lemma {:induction false} ShareBelowSum(s: seq<Portion>, i: nat)
    requires i < |s| && forall j :: 0 <= j < |s| ==> s[j].unit.share > 0
    ensures 0 <= SumPortionShares(s[..|s| - 1]) && s[i].unit.share <= SumPortionShares(s)
    decreases |s|
  {
    var n := |s| - 1;
    if n > 0 {
      ShareBelowSum(s[..n], if i < n then i else 0);
    }
  }

  /** Every unit gets the floor or the ceiling of its exact part, and no number of cents
      leaves the range from 0 to the total. */
  lemma SplitKeepsQuota(total: int, units: seq<Unit>, s: seq<Portion>, r: seq<Allotment>, i: nat)
    requires IsSplit(total, units, s, r) && i < |r|
    ensures var c, shares := CentsOf(r)[i], SumShares(units);
            && r[i].amount == Cents(c) && 0 <= c <= total
            && shares > 0 && r[i].unit.share > 0
            && shares * (c - 1) < total * r[i].unit.share < shares * (c + 1)
  {
    var left := Facts(total, units, s, r);
    assert forall j :: 0 <= j < |s| ==> ExactPortion(total, SumShares(units), s[j]);
    ShareBelowSum(s, i);
    QuotaArithmetic(SumShares(units), total, s[i].unit.share, s[i].cents, s[i].remainder, i < left);
  }

  // ---- Which units are served ----

  lemma {:induction false} PortionUnits(total: int, shares: int, units: seq<Unit>)
    requires shares > 0
    ensures |Portions(total, shares, units)| == |PositiveShares(units)|
    ensures forall i :: 0 <= i < |PositiveShares(units)| ==>
              Portions(total, shares, units)[i] == PortionOf(total, shares, PositiveShares(units)[i])
  {
    if units != [] {
      PortionUnits(total, shares, units[..|units| - 1]);
    }
  }

  function UnitsOfPortions(s: seq<Portion>): seq<Unit> {
    seq(|s|, i requires 0 <= i < |s| => s[i].unit)
  }

  lemma {:induction false} UnitsOfOrdering(s: seq<Portion>, t: seq<Portion>)
    requires multiset(s) == multiset(t)
    ensures multiset(UnitsOfPortions(s)) == multiset(UnitsOfPortions(t))
    decreases |s|
  {
    if s == [] {
      assert |multiset(t)| == 0;
      assert t == [];
    } else {
      var n := |s| - 1;
      var k := LastInPermutation(s, t);
      UnitsOfOrdering(s[..n], Without(t, k));
      MultisetWithout(UnitsOfPortions(t), k);
      MultisetWithout(UnitsOfPortions(s), n);
      assert Without(UnitsOfPortions(s), n) == UnitsOfPortions(s[..n]);
      assert Without(UnitsOfPortions(t), k) == UnitsOfPortions(Without(t, k));
    }
  }

  /** Each unit with a positive share is served exactly once, and no other. */
  lemma SplitServesPositiveShares(total: int, units: seq<Unit>, s: seq<Portion>, r: seq<Allotment>)
    requires IsSplit(total, units, s, r)
    ensures multiset(UnitsOf(r)) == multiset(PositiveShares(units))
  {
    var left := Facts(total, units, s, r);
    var p := Portions(total, SumShares(units), units);
    UnitsOfOrdering(s, p);
    PortionUnits(total, SumShares(units), units);
    assert UnitsOfPortions(p) == PositiveShares(units);
    assert UnitsOfPortions(s) == UnitsOf(r);
  }

  // ---- Fairness ----

  lemma FairArithmetic(shares: int, total: int, a: int, b: int, qa: int, ra: int, qb: int, rb: int)
    requires shares > 0 && total > 0 && a > b
    requires shares * qa + ra == total * a && shares * qb + rb == total * b
    requires 0 <= ra < shares && 0 <= rb < shares
    ensures qa > qb || (qa == qb && ra > rb)
  {
    MulLess(total, b, a);
    MulLess(shares, qa, qb);
    assert shares * (qa + 1) == shares * qa + shares;
    MulLess(shares, qa + 1, qb);
  }

  /** A larger share never receives less. */
  lemma LargerShareNotLess(total: int, units: seq<Unit>, s: seq<Portion>, r: seq<Allotment>, i: nat, j: nat)
    requires total > 0 && IsSplit(total, units, s, r) && i < |r| && j < |r|
    requires r[i].unit.share > r[j].unit.share
    ensures r[i].amount >= r[j].amount
  {
    var left := Facts(total, units, s, r);
    var p, q := s[i], s[j];
    assert ExactPortion(total, SumShares(units), p) && ExactPortion(total, SumShares(units), q);
    FairArithmetic(SumShares(units), total, p.unit.share, q.unit.share, p.cents, p.remainder, q.cents, q.remainder);
    SortedPair(s, j, i);
    assert AwardedCents(s, left, i) >= AwardedCents(s, left, j);
  }

  lemma SortedPair(s: seq<Portion>, i: nat, j: nat)
    requires Sorted(s) && i < |s| && j < |s|
    ensures i < j ==> !Before(s[j], s[i])
  {}

  lemma SamePart(shares: int, qa: int, ra: int, qb: int, rb: int)
    requires shares > 0 && 0 <= ra < shares && 0 <= rb < shares
    requires shares * qa + ra == shares * qb + rb
    ensures qa == qb && ra == rb
  {
    MulLess(shares, qa, qb);
    MulLess(shares, qb, qa);
    assert shares * (qa + 1) == shares * qa + shares && shares * (qb + 1) == shares * qb + shares;
    MulLess(shares, qa + 1, qb);
    MulLess(shares, qb + 1, qa);
  }

  /** The order between units with equal remainders: by number, then by ID. */
  predicate Precedes(u: Unit, v: Unit) {
    u.number < v.number || (u.number == v.number && Strings.Less(u.id, v.id))
  }

  /** Equal shares differ by at most one cent, in favour of the lower unit number. */
  lemma EqualSharesWithinOneCent(total: int, units: seq<Unit>, s: seq<Portion>, r: seq<Allotment>, i: nat, j: nat)
    requires total > 0 && IsSplit(total, units, s, r) && i < |r| && j < |r|
    requires r[i].unit.share == r[j].unit.share && Precedes(r[i].unit, r[j].unit)
    ensures r[j].amount <= r[i].amount <= r[j].amount + Cents(1)
  {
    var left := Facts(total, units, s, r);
    assert ExactPortion(total, SumShares(units), s[i]) && ExactPortion(total, SumShares(units), s[j]);
    SamePart(SumShares(units), s[i].cents, s[i].remainder, s[j].cents, s[j].remainder);
    SortedPair(s, j, i);
  }

  // ---- Who gets a left cent ----

  /** A unit that comes first when cents are left: by the larger remainder of its exact
      part, then by number, then by ID. */
  predicate Outranks(total: int, shares: int, u: Unit, v: Unit)
    requires shares > 0
  {
    var a, b := total * u.share % shares, total * v.share % shares;
    a > b || (a == b && Precedes(u, v))
  }

  /** An amount above the exact part of its unit. */
  predicate RoundedUp(total: int, shares: int, u: Unit, cents: int) {
    shares * cents > total * u.share
  }

  lemma RemainderIs(shares: int, x: int, q: int, rem: int)
    requires shares > 0 && 0 <= rem < shares && shares * q + rem == x
    ensures x % shares == rem
  {
    assert x == shares * (x / shares) + x % shares;
    SamePart(shares, q, rem, x / shares, x % shares);
  }

  lemma RoundedUpIff(shares: int, x: int, q: int, rem: int, won: bool)
    requires shares > 0 && 0 <= rem < shares && shares * q + rem == x
    ensures shares * (q + if won then 1 else 0) > x <==> won
  {
    assert shares * (q + 1) == shares * q + shares;
  }

  lemma RanksBefore(total: int, shares: int, p: Portion, q: Portion)
    requires shares > 0 && ExactPortion(total, shares, p) && ExactPortion(total, shares, q)
    requires Outranks(total, shares, p.unit, q.unit)
    ensures Before(p, q)
  {
    RemainderIs(shares, total * p.unit.share, p.cents, p.remainder);
    RemainderIs(shares, total * q.unit.share, q.cents, q.remainder);
  }

  /** Whoever outranks a unit that was rounded up was rounded up too, whatever the shares. */
  lemma LeftCentsGoByRank(total: int, units: seq<Unit>, s: seq<Portion>, r: seq<Allotment>, i: nat, j: nat)
    requires IsSplit(total, units, s, r) && i < |r| && j < |r| && SumShares(units) > 0
    requires RoundedUp(total, SumShares(units), r[j].unit, CentsOf(r)[j])
    requires Outranks(total, SumShares(units), r[i].unit, r[j].unit)
    ensures RoundedUp(total, SumShares(units), r[i].unit, CentsOf(r)[i])
  {
    hide IsSplit, Sorted, SumShares, Before, Outranks, CentsOf, SumCents, NonZero, SumPortionShares;
    var left := Facts(total, units, s, r);
    var shares := SumShares(units);
    SplitIsOrdered(total, units, s, r);
    var p, q := s[i], s[j];
    assert ExactPortion(total, shares, p) && ExactPortion(total, shares, q);
    RoundedUpIff(shares, total * p.unit.share, p.cents, p.remainder, i < left);
    RoundedUpIff(shares, total * q.unit.share, q.cents, q.remainder, j < left);
    RanksBefore(total, shares, p, q);
    SortedPair(s, j, i);
  }

  lemma SplitIsOrdered(total: int, units: seq<Unit>, s: seq<Portion>, r: seq<Allotment>)
    requires IsSplit(total, units, s, r)
    ensures Sorted(s) && |r| == |s| && forall k :: 0 <= k < |s| ==> r[k].unit == s[k].unit
  {}

  // ---- Determinism ----

  predicate DistinctIds(units: seq<Unit>) {
    forall i, j :: 0 <= i < j < |units| ==> units[i].id != units[j].id
  }

  lemma {:induction false} SumSharesWithout(units: seq<Unit>, k: nat)
    requires k < |units|
    ensures SumShares(units) == SumShares(Without(units, k)) + units[k].share
    decreases |units|
  {
    var n := |units| - 1;
    var t := Without(units, k);
    if k == n {
      assert t == units[..n];
    } else {
      SumSharesWithout(units[..n], k);
      assert t[..n - 1] == Without(units[..n], k);
      assert t[n - 1] == units[n];
    }
  }

  function One(total: int, shares: int): Unit -> multiset<Portion>
    requires shares > 0
  {
    (u: Unit) => if u.share == 0 then multiset{} else multiset{PortionOf(total, shares, u)}
  }

  lemma {:induction false} PortionsCollected(total: int, shares: int, units: seq<Unit>)
    requires shares > 0
    ensures multiset(Portions(total, shares, units)) == Collect(One(total, shares), units)
    decreases |units|
  {
    if units != [] {
      PortionsCollected(total, shares, units[..|units| - 1]);
    }
  }

  lemma {:induction false} SumSharesOfPermutation(u: seq<Unit>, v: seq<Unit>)
    requires multiset(u) == multiset(v)
    ensures SumShares(u) == SumShares(v)
    decreases |u|
  {
    if u == [] {
      assert |multiset(v)| == 0;
    } else {
      var k := LastInPermutation(u, v);
      SumSharesOfPermutation(u[..|u| - 1], Without(v, k));
      SumSharesWithout(v, k);
    }
  }

  lemma PortionsOfPermutation(total: int, shares: int, u: seq<Unit>, v: seq<Unit>)
    requires multiset(u) == multiset(v) && shares > 0
    ensures multiset(Portions(total, shares, u)) == multiset(Portions(total, shares, v))
  {
    CollectPermutation(One(total, shares), u, v);
    PortionsCollected(total, shares, u);
    PortionsCollected(total, shares, v);
  }

  predicate OrderTellsApart(m: multiset<Portion>) {
    forall p, q :: p in m && q in m && p != q ==> Before(p, q) || Before(q, p)
  }

  lemma SameLast(s: seq<Portion>, t: seq<Portion>)
    requires multiset(s) == multiset(t) && Sorted(s) && Sorted(t) && s != [] && t != []
    requires OrderTellsApart(multiset(s))
    ensures s[|s| - 1] == t[|t| - 1]
  {
    var x, y := s[|s| - 1], t[|t| - 1];
    assert x in multiset(t) && y in multiset(s);
    var k :| 0 <= k < |t| && t[k] == x;
    var m :| 0 <= m < |s| && s[m] == y;
    assert k < |t| - 1 ==> !Before(y, x);
    assert m < |s| - 1 ==> !Before(x, y);
  }

  /** When the order tells portions apart, there is only one way to order the portions. */
  lemma {:induction false} OrderingIsUnique(s: seq<Portion>, t: seq<Portion>)
    requires multiset(s) == multiset(t) && Sorted(s) && Sorted(t)
    requires OrderTellsApart(multiset(s))
    ensures s == t
    decreases |s|
  {
    hide Before;
    assert |s| == |multiset(s)| == |multiset(t)| == |t|;
    if s != [] {
      SameLast(s, t);
      DropSameLast(s, t);
      OrderingIsUnique(s[..|s| - 1], t[..|t| - 1]);
      assert s == s[..|s| - 1] + [s[|s| - 1]] && t == t[..|t| - 1] + [t[|t| - 1]];
    }
  }

  lemma PortionsToldApart(total: int, shares: int, units: seq<Unit>, p: Portion, q: Portion)
    requires shares > 0 && DistinctIds(units)
    requires p in Portions(total, shares, units) && q in Portions(total, shares, units) && p != q
    ensures Before(p, q) || Before(q, p)
  {
    PortionFromUnit(total, shares, units, p);
    PortionFromUnit(total, shares, units, q);
    assert p.unit.id != q.unit.id;
    Strings.LessTotal(p.unit.id, q.unit.id);
  }

  lemma {:induction false} PortionFromUnit(total: int, shares: int, units: seq<Unit>, p: Portion)
    requires shares > 0 && p in Portions(total, shares, units)
    ensures p.unit in units && p == PortionOf(total, shares, p.unit)
  {
    var n := |units| - 1;
    if p in Portions(total, shares, units[..n]) {
      PortionFromUnit(total, shares, units[..n], p);
    }
  }

  /** The result is the same for every permutation of the units, which their primary keys
      tell apart. */
  lemma SplitIsDeterministic(total: int, u: seq<Unit>, v: seq<Unit>, s: seq<Portion>, t: seq<Portion>,
                             r: seq<Allotment>, r': seq<Allotment>)
    requires multiset(u) == multiset(v) && DistinctIds(u)
    requires IsSplit(total, u, s, r) && IsSplit(total, v, t, r')
    ensures r == r'
  {
    SumSharesOfPermutation(u, v);
    PortionsOfPermutation(total, SumShares(u), u, v);
    assert multiset(s) == multiset(Portions(total, SumShares(u), u)) == multiset(t);
    forall p: Portion, q: Portion | p in multiset(s) && q in multiset(s) && p != q
      ensures Before(p, q) || Before(q, p)
    {
      assert p in multiset(Portions(total, SumShares(u), u)) && q in multiset(Portions(total, SumShares(u), u));
      PortionsToldApart(total, SumShares(u), u, p, q);
    }
    OrderingIsUnique(s, t);
  }

  // ---- Optimality ----

  function Abs(x: int): nat {
    if x >= 0 then x else -x
  }

  /** How far a number of cents is from the exact part, in units of 1/S cent. */
  function Gap(shares: int, total: int, u: Unit, c: int): nat {
    Abs(shares * c - total * u.share)
  }

  /** The total distance of a split from the exact parts. */
  function Deviation(shares: int, total: int, units: seq<Unit>, c: seq<int>): int
    requires |units| == |c|
  {
    if c == [] then 0
    else
      var n := |c| - 1;
      Deviation(shares, total, units[..n], c[..n]) + Gap(shares, total, units[n], c[n])
  }

  /** The price of a cent: no unit gains by another number of cents at this price. */
  predicate Price(shares: int, rem: int, won: bool, price: int) {
    if won then shares - 2 * rem <= price <= shares else -shares <= price <= shares - 2 * rem
  }

  lemma NonNegativeProduct(a: int, b: int)
    requires a >= 0 && b >= 0
    ensures a * b >= 0
  {}

  lemma Times(a: int, b: int, c: int)
    ensures a * (b + c) == a * b + a * c && a * (b - c) == a * b - a * c
  {}

  /** More cents than the quotient: `sk` and `pk` are the products of `k` more cents with
      the shares and with the price. */
  lemma NoGainAbove(shares: int, rem: int, won: bool, price: int, k: int, sk: int, pk: int)
    requires shares > 0 && 0 <= rem < shares && (won ==> rem > 0) && Price(shares, rem, won, price)
    requires k >= 1 && sk - pk >= shares - price && sk >= shares
    ensures var least := if won then shares - rem else rem;
            Abs(sk - rem) >= least + pk - if won then price else 0
  {}

  lemma NoGainBelow(shares: int, rem: int, won: bool, price: int, k: int, sk: int, pk: int)
    requires shares > 0 && 0 <= rem < shares && (won ==> rem > 0) && Price(shares, rem, won, price)
    requires k <= 0 && -sk - pk >= 0 && sk <= 0
    ensures var least := if won then shares - rem else rem;
            Abs(sk - rem) >= least + pk - if won then price else 0
  {}

  lemma ProductsAbove(shares: int, price: int, k: int)
    requires shares > 0 && price <= shares && k >= 1
    ensures shares * k - price * k >= shares - price && shares * k >= shares
  {
    NonNegativeProduct(shares - price, k - 1);
    NonNegativeProduct(shares, k - 1);
    assert (shares - price) * (k - 1) == shares * k - price * k - shares + price;
    assert shares * (k - 1) == shares * k - shares;
  }

  lemma ProductsBelow(shares: int, price: int, k: int)
    requires shares > 0 && -shares <= price && k <= 0
    ensures -(shares * k) - price * k >= 0 && shares * k <= 0
  {
    NonNegativeProduct(shares + price, -k);
    NonNegativeProduct(shares, -k);
    assert (shares + price) * (-k) == -(shares * k) - price * k;
    assert shares * (-k) == -(shares * k);
  }

  /** The distance of `k` more cents than the quotient. */
  lemma GapOf(shares: int, total: int, u: Unit, q: int, rem: int, k: int)
    requires shares * q + rem == total * u.share
    ensures Gap(shares, total, u, q + k) == Abs(shares * k - rem)
  {
    Times(shares, q, k);
  }

  /** Pointwise optimality at a price. */
  lemma NoGainAtPrice(shares: int, total: int, u: Unit, q: int, rem: int, won: bool, price: int, c: int)
    requires shares > 0 && 0 <= rem < shares && (won ==> rem > 0)
    requires shares * q + rem == total * u.share && Price(shares, rem, won, price)
    ensures var best := q + if won then 1 else 0;
            Gap(shares, total, u, c) >= Gap(shares, total, u, best) + price * (c - best)
  {
    var k, least := c - q, if won then 1 else 0;
    GapOf(shares, total, u, q, rem, k);
    GapOf(shares, total, u, q, rem, least);
    Times(price, k, least);
    hide Gap;
    if k >= 1 {
      ProductsAbove(shares, price, k);
      NoGainAbove(shares, rem, won, price, k, shares * k, price * k);
    } else {
      ProductsBelow(shares, price, k);
      NoGainBelow(shares, rem, won, price, k, shares * k, price * k);
    }
  }

  lemma {:induction false} NoGainInTotal(shares: int, total: int, s: seq<Portion>, left: int, price: int, c: seq<int>, best: seq<int>)
    requires shares > 0 && ExactPortions(total, shares, s) && |c| == |s| == |best|
    requires forall i :: 0 <= i < |s| ==> Price(shares, s[i].remainder, i < left, price)
    requires forall i :: 0 <= i < |s| ==> best[i] == AwardedCents(s, left, i) && (i < left ==> s[i].remainder > 0)
    ensures Deviation(shares, total, UnitsOfPortions(s), c)
         >= Deviation(shares, total, UnitsOfPortions(s), best) + price * (SumInts(c) - SumInts(best))
    decreases |s|
  {
    if s != [] {
      var n := |s| - 1;
      NoGainInTotal(shares, total, s[..n], left, price, c[..n], best[..n]);
      assert UnitsOfPortions(s)[..n] == UnitsOfPortions(s[..n]);
      assert ExactPortion(total, shares, s[n]);
      NoGainAtPrice(shares, total, s[n].unit, s[n].cents, s[n].remainder, n < left, price, c[n]);
      Times(price, SumInts(c[..n]) - SumInts(best[..n]), c[n] - best[n]);
    }
  }

  /** The price is read off the last unit that is rounded up. */
  lemma PriceExists(total: int, shares: int, s: seq<Portion>, left: int) returns (price: int)
    requires shares > 0 && ExactPortions(total, shares, s) && Sorted(s) && 0 <= left <= |s|
    ensures forall i :: 0 <= i < |s| ==> Price(shares, s[i].remainder, i < left, price)
  {
    price := if left == 0 then -shares else shares - 2 * s[left - 1].remainder;
    forall i | 0 <= i < |s|
      ensures Price(shares, s[i].remainder, i < left, price)
    {
      assert ExactPortion(total, shares, s[i]);
      if left > 0 {
        assert ExactPortion(total, shares, s[left - 1]);
        if i < left - 1 {
          assert !Before(s[left - 1], s[i]);
        } else if i > left - 1 {
          assert !Before(s[i], s[left - 1]);
        }
      }
    }
  }

  lemma {:induction false} SumOfCents(r: seq<Allotment>)
    requires forall i :: 0 <= i < |r| ==> r[i].amount == Cents(CentsOf(r)[i])
    ensures SumAmounts(r) == Cents(SumInts(CentsOf(r)))
    decreases |r|
  {
    if r != [] {
      var n := |r| - 1;
      assert CentsOf(r)[..n] == CentsOf(r[..n]);
      assert forall i :: 0 <= i < n ==> CentsOf(r[..n])[i] == CentsOf(r)[i];
      SumOfCents(r[..n]);
    }
  }

  /** Optimality: among all splits of the same total into whole cents over the served
      units, none is closer to the exact parts. */
  lemma SplitIsOptimal(total: int, units: seq<Unit>, s: seq<Portion>, r: seq<Allotment>, c: seq<int>)
    requires IsSplit(total, units, s, r) && |c| == |r| && SumInts(c) == total
    ensures Deviation(SumShares(units), total, UnitsOf(r), CentsOf(r))
         <= Deviation(SumShares(units), total, UnitsOf(r), c)
  {
    var left := Facts(total, units, s, r);
    assert UnitsOfPortions(s) == UnitsOf(r);
    CentsSumToTotal(total, units, s, r);
    hide Deviation, ExactPortions, SumInts, SumCents, Price, IsSplit, SumPortionShares;
    var shares := SumShares(units);
    var price := PriceExists(total, shares, s, left);
    NoGainInTotal(shares, total, s, left, price, c, CentsOf(r));
    TimesNothing(price, SumInts(c) - SumInts(CentsOf(r)));
  }

  lemma TimesNothing(a: int, b: int)
    requires b == 0
    ensures a * b == 0
  {}

  lemma CentsSumToTotal(total: int, units: seq<Unit>, s: seq<Portion>, r: seq<Allotment>)
    requires IsSplit(total, units, s, r)
    ensures SumInts(CentsOf(r)) == total
  {
    hide IsSplit, SumAmounts, SumInts;
    SplitIsExact(total, units, s, r);
    forall i | 0 <= i < |r|
      ensures r[i].amount == Cents(CentsOf(r)[i])
    {
      SplitKeepsQuota(total, units, s, r, i);
    }
    SumOfCents(r);
  }

  // ---- The informative rates ----

  lemma Round6Bound(a: Amount)
    ensures -0.0000005 <= Round6(a) - a <= 0.0000005
  {
    RoundIntBound(a * 1000000.0);
  }

  /** The amount of some shares at a rate. */
  function AtRate(share: int, rate: real): Amount {
    share as real * rate
  }

  lemma ShareTimesRate(share: int, exact: real, rate: real)
    requires share >= 0 && -0.0000005 <= rate - exact <= 0.0000005
    ensures -AtRate(share, 0.0000005) <= AtRate(share, rate) - AtRate(share, exact) <= AtRate(share, 0.0000005)
  {
    var d := rate - exact;
    assert AtRate(share, rate) - AtRate(share, exact) == share as real * d;
    assert share as real * d <= share as real * 0.0000005;
    assert share as real * d >= share as real * -0.0000005;
  }

  lemma ExactPart(shares: int, total: int, share: int, c: int)
    requires shares > 0 && shares * (c - 1) < total * share < shares * (c + 1)
    ensures -0.01 < Cents(c) - AtRate(share, Cents(total) / shares as real) < 0.01
  {
    var S, x := shares as real, (total * share) as real;
    assert (c - 1) as real * S < x < (c + 1) as real * S by {
      assert (shares * (c - 1)) as real == (c - 1) as real * S;
      assert (shares * (c + 1)) as real == (c + 1) as real * S;
    }
    assert (x / S) * S == x;
    assert (c - 1) as real < x / S < (c + 1) as real;
    var exact := Cents(total) / S;
    assert exact * S == Cents(total);
    var y := AtRate(share, exact);
    assert y * S == share as real * Cents(total) == x / 100.0;
    assert y == (x / S) / 100.0;
  }

  /** Within one cent, plus the rounding of the rate times the share. */
  predicate NearAnnounced(amount: Amount, total: int, shares: int, share: int)
    requires shares > 0
  {
    var announced := AtRate(share, AnnualPerShare(Cents(total), shares));
    var margin := 0.01 + AtRate(share, 0.0000005);
    -margin < amount - announced < margin
  }

  lemma NearPreview(shares: int, total: int, share: int, c: int)
    requires shares > 0 && share >= 0 && shares * (c - 1) < total * share < shares * (c + 1)
    ensures NearAnnounced(Cents(c), total, shares, share)
  {
    hide AtRate, Round6, Cents;
    ExactPart(shares, total, share, c);
    var exact := Cents(total) / shares as real;
    Round6Bound(exact);
    ShareTimesRate(share, exact, AnnualPerShare(Cents(total), shares));
  }

  /** Each published amount is near what the previewed annual rate announces. */
  lemma PublishedNearPreview(total: int, units: seq<Unit>, s: seq<Portion>, r: seq<Allotment>, i: nat)
    requires IsSplit(total, units, s, r) && i < |r|
    ensures SumShares(units) > 0
    ensures NearAnnounced(r[i].amount, total, SumShares(units), r[i].unit.share)
  {
    SplitKeepsQuota(total, units, s, r, i);
    NearPreview(SumShares(units), total, r[i].unit.share, CentsOf(r)[i]);
  }

  /** Twelve monthly rates are within 0.000006 euro of the exact annual rate. */
  lemma TwelveMonthsNearYear(amount: Amount, shares: int)
    requires shares > 0
    ensures -0.000006 <= 12.0 * MonthlyPerShare(amount, shares) - amount / shares as real <= 0.000006
  {
    var S := shares as real;
    var m := amount / (S * 12.0);
    Round6Bound(m);
    assert m * (S * 12.0) == amount;
    assert (12.0 * m) * S == amount;
    assert (amount / S) * S == amount;
    assert 12.0 * m == amount / S;
  }
}

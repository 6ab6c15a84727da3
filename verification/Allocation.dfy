/** controllers/allocation.go: splitting a budget over the units by largest remainders,
    in whole cents. */
module Allocation {
  import opened Wrappers
  import opened Money
  import opened Sequences
  import Strings

  const MAX_INT64: int := 0x7FFF_FFFF_FFFF_FFFF

  datatype Unit = Unit(id: string, number: int, share: int)

  datatype Allotment = Allotment(unit: Unit, amount: Amount)

  function SumShares(units: seq<Unit>): int {
    if units == [] then 0 else SumShares(units[..|units| - 1]) + units[|units| - 1].share
  }

  predicate SharesAccepted(units: seq<Unit>) {
    && (forall i :: 0 <= i < |units| ==> units[i].share >= 0)
    && 0 < SumShares(units) <= MAX_INT64
  }

  lemma {:induction false} SumSharesPrefix(units: seq<Unit>, k: nat)
    requires k <= |units| && forall i :: 0 <= i < |units| ==> units[i].share >= 0
    ensures 0 <= SumShares(units[..k]) <= SumShares(units)
    decreases |units|
  {
    if k < |units| {
      assert units[..|units| - 1][..k] == units[..k];
      SumSharesPrefix(units[..|units| - 1], k);
    } else if units != [] {
      assert units[..k] == units;
      SumSharesPrefix(units[..|units| - 1], k - 1);
    }
  }

  /** TotalShares: the loop never overflows, and accepts exactly the non-negative shares
      with a positive total that fits 64 bits. */
  method TotalShares(units: seq<Unit>) returns (r: Result<int>)
    ensures r.Ok? <==> SharesAccepted(units)
    ensures r.Ok? ==> r.value == SumShares(units)
  {
    var total := 0;
    for i := 0 to |units|
      invariant forall j :: 0 <= j < i ==> units[j].share >= 0
      invariant total == SumShares(units[..i])
      invariant 0 <= total <= MAX_INT64
    {
      if units[i].share < 0 {
        return Err("negative share");
      }
      assert units[..i + 1][..i] == units[..i];
      if units[i].share > MAX_INT64 - total {
        if SharesAccepted(units) {
          SumSharesPrefix(units, i + 1);
        }
        return Err("total of shares over the limit");
      }
      total := total + units[i].share;
    }
    assert units[..|units|] == units;
    if total == 0 {
      return Err("total of shares must be positive");
    }
    return Ok(total);
  }

  // ---- Portions and their order ----

  datatype Portion = Portion(unit: Unit, cents: int, remainder: int)

  /** Exact division of the unit's part of the total, in big integers. */
  function PortionOf(total: int, shares: int, u: Unit): Portion
    requires shares > 0
  {
    Portion(u, total * u.share / shares, total * u.share % shares)
  }

  function Portions(total: int, shares: int, units: seq<Unit>): seq<Portion>
    requires shares > 0
  {
    if units == [] then []
    else
      var u := units[|units| - 1];
      Portions(total, shares, units[..|units| - 1]) + if u.share == 0 then [] else [PortionOf(total, shares, u)]
  }

  /** The order given to sort.Slice: larger remainder, then number, then ID. */
  predicate Before(p: Portion, q: Portion) {
    if p.remainder != q.remainder then p.remainder > q.remainder
    else if p.unit.number != q.unit.number then p.unit.number < q.unit.number
    else Strings.Less(p.unit.id, q.unit.id)
  }

  lemma BeforeTransitive(p: Portion, q: Portion, r: Portion)
    requires Before(p, q) && Before(q, r)
    ensures Before(p, r)
  {
    if Strings.Less(p.unit.id, q.unit.id) && Strings.Less(q.unit.id, r.unit.id) {
      Strings.LessTransitive(p.unit.id, q.unit.id, r.unit.id);
    }
  }

  predicate Sorted(s: seq<Portion>) {
    forall i, j :: 0 <= i < j < |s| ==> !Before(s[j], s[i])
  }

  /** What any sort by that order yields. */
  predicate IsOrdering(sorted: seq<Portion>, portions: seq<Portion>) {
    multiset(sorted) == multiset(portions) && Sorted(sorted)
  }

  function Insert(p: Portion, s: seq<Portion>): (r: seq<Portion>)
    requires Sorted(s)
    ensures IsOrdering(r, s + [p])
  {
    if s == [] then [p]
    else if Before(p, s[0]) then
      InsertFirst(p, s);
      [p] + s
    else
      var rest := Insert(p, s[1..]);
      InsertLater(p, s, rest);
      [s[0]] + rest
  }

  lemma InsertFirst(p: Portion, s: seq<Portion>)
    requires Sorted(s) && s != [] && Before(p, s[0])
    ensures IsOrdering([p] + s, s + [p])
  {
    var r := [p] + s;
    forall i, j | 0 <= i < j < |r|
      ensures !Before(r[j], r[i])
    {
      if i == 0 {
        if Before(s[j - 1], p) {
          BeforeTransitive(s[j - 1], p, s[0]);
          if j == 1 {
            BeforeTransitive(p, s[0], p);
            BeforeIrreflexive(p);
          }
          assert false;
        }
      }
    }
  }

  lemma BeforeIrreflexive(p: Portion)
    ensures !Before(p, p)
  {
    Strings.LessIrreflexive(p.unit.id);
  }

  lemma InsertLater(p: Portion, s: seq<Portion>, rest: seq<Portion>)
    requires Sorted(s) && s != [] && !Before(p, s[0]) && IsOrdering(rest, s[1..] + [p])
    ensures IsOrdering([s[0]] + rest, s + [p])
  {
    var r := [s[0]] + rest;
    assert s == [s[0]] + s[1..];
    forall j | 0 <= j < |rest|
      ensures !Before(rest[j], s[0])
    {
      assert rest[j] in multiset(rest);
      assert rest[j] in s[1..] + [p];
    }
    forall i, j | 0 <= i < j < |r|
      ensures !Before(r[j], r[i])
    {
      assert r[j] == rest[j - 1];
      if i > 0 {
        assert r[i] == rest[i - 1];
      }
    }
  }

  /** Stands for sort.Slice. */
  function SortPortions(s: seq<Portion>): (r: seq<Portion>)
    ensures IsOrdering(r, s)
  {
    if s == [] then []
    else
      var n := |s| - 1;
      assert s[..n] + [s[n]] == s;
      var rest := SortPortions(s[..n]);
      assert multiset(rest + [s[n]]) == multiset(s);
      Insert(s[n], rest)
  }

  // ---- Arithmetic of the split ----

  /** Exact portions of a total over positive shares. */
  predicate ExactPortions(total: int, shares: int, s: seq<Portion>) {
    forall i :: 0 <= i < |s| ==> ExactPortion(total, shares, s[i])
  }

  predicate ExactPortion(total: int, shares: int, p: Portion) {
    && p.unit.share > 0
    && 0 <= p.remainder < shares
    && p.cents >= 0
    && shares * p.cents + p.remainder == total * p.unit.share
  }

  function SumCents(s: seq<Portion>): int {
    if s == [] then 0 else SumCents(s[..|s| - 1]) + s[|s| - 1].cents
  }

  function SumRemainders(s: seq<Portion>): int {
    if s == [] then 0 else SumRemainders(s[..|s| - 1]) + s[|s| - 1].remainder
  }

  function SumPortionShares(s: seq<Portion>): int {
    if s == [] then 0 else SumPortionShares(s[..|s| - 1]) + s[|s| - 1].unit.share
  }

  function NonZero(s: seq<Portion>): nat {
    if s == [] then 0 else NonZero(s[..|s| - 1]) + if s[|s| - 1].remainder != 0 then 1 else 0
  }

  lemma PortionIsExact(total: int, shares: int, u: Unit)
    requires total >= 0 && shares > 0 && u.share > 0
    ensures ExactPortion(total, shares, PortionOf(total, shares, u))
  {
    var x := total * u.share;
    assert x >= 0;
    assert x == shares * (x / shares) + x % shares;
  }

  lemma ExactAppend(total: int, shares: int, front: seq<Portion>, p: Portion)
    requires ExactPortions(total, shares, front) && ExactPortion(total, shares, p)
    ensures ExactPortions(total, shares, front + [p])
    ensures SumPortionShares(front + [p]) == SumPortionShares(front) + p.unit.share
  {
    hide ExactPortion;
    assert (front + [p])[..|front|] == front;
  }

  lemma {:induction false} PortionsAreExact(total: int, shares: int, units: seq<Unit>)
    requires total >= 0 && shares > 0 && forall i :: 0 <= i < |units| ==> units[i].share >= 0
    ensures ExactPortions(total, shares, Portions(total, shares, units))
    ensures SumPortionShares(Portions(total, shares, units)) == SumShares(units)
    ensures |Portions(total, shares, units)| <= |units|
    decreases |units|
  {
    hide PortionOf, ExactPortion, ExactPortions, SumPortionShares;
    if units == [] {
      NoPortions(total, shares);
    } else {
      var n := |units| - 1;
      PortionsAreExact(total, shares, units[..n]);
      var front := Portions(total, shares, units[..n]);
      if units[n].share != 0 {
        PortionIsExact(total, shares, units[n]);
        PortionUnit(total, shares, units[n]);
        ExactAppend(total, shares, front, PortionOf(total, shares, units[n]));
      } else {
        assert front + [] == front;
      }
    }
  }

  lemma NoPortions(total: int, shares: int)
    ensures ExactPortions(total, shares, []) && SumPortionShares([]) == 0
  {}

  lemma PortionUnit(total: int, shares: int, u: Unit)
    requires shares > 0
    ensures PortionOf(total, shares, u).unit == u
  {}

  lemma AddExact(total: int, shares: int, c: int, r: int, p: int, cents: int, rem: int, share: int)
    requires shares * c + r == total * p && shares * cents + rem == total * share
    ensures shares * (c + cents) + (r + rem) == total * (p + share)
  {}

  /** Cents and remainders together make up the total: S * cents + remainders == T * S. */
  lemma {:induction false} SumsAddUp(total: int, shares: int, s: seq<Portion>)
    requires ExactPortions(total, shares, s)
    ensures shares * SumCents(s) + SumRemainders(s) == total * SumPortionShares(s)
    decreases |s|
  {
    if s != [] {
      var n := |s| - 1;
      SumsAddUp(total, shares, s[..n]);
      assert ExactPortion(total, shares, s[n]);
      AddExact(total, shares, SumCents(s[..n]), SumRemainders(s[..n]), SumPortionShares(s[..n]),
               s[n].cents, s[n].remainder, s[n].unit.share);
    }
  }

  lemma OneMore(shares: int, k: int)
    ensures shares * (k + 1) == shares * k + shares
  {}

  lemma {:induction false} RemaindersBound(total: int, shares: int, s: seq<Portion>)
    requires ExactPortions(total, shares, s)
    ensures 0 <= SumRemainders(s) <= shares * NonZero(s)
    decreases |s|
  {
    if s != [] {
      var n := |s| - 1;
      RemaindersBound(total, shares, s[..n]);
      assert ExactPortion(total, shares, s[n]);
      OneMore(shares, NonZero(s[..n]));
    }
  }

  lemma MulLess(shares: int, a: int, b: int)
    requires shares > 0
    ensures a < b ==> shares * a < shares * b
  {}

  lemma Quotient(shares: int, a: int, k: int)
    requires shares > 0 && 0 <= shares * a <= shares * k
    ensures 0 <= a <= k
  {
    MulLess(shares, a, 0);
    MulLess(shares, k, a);
  }

  lemma Subtract(shares: int, total: int, cents: int, r: int)
    requires shares * cents + r == total * shares
    ensures shares * (total - cents) == r
  {}

  /** The leftover is at least 0 and at most the number of non-zero remainders. */
  lemma LeftoverBounds(total: int, shares: int, s: seq<Portion>)
    requires ExactPortions(total, shares, s) && shares > 0 && SumPortionShares(s) == shares
    ensures 0 <= total - SumCents(s) <= NonZero(s) <= |s|
  {
    SumsAddUp(total, shares, s);
    RemaindersBound(total, shares, s);
    NonZeroBound(s, |s|);
    Subtract(shares, total, SumCents(s), SumRemainders(s));
    Quotient(shares, total - SumCents(s), NonZero(s));
  }

  lemma {:induction false} NonZeroBound(s: seq<Portion>, k: nat)
    requires k <= |s| && forall i :: k <= i < |s| ==> s[i].remainder == 0
    ensures NonZero(s) <= k
    decreases |s|
  {
    if s != [] {
      NonZeroBound(s[..|s| - 1], if k == |s| then k - 1 else k);
    }
  }

  /** Only units with a non-zero remainder receive one of the leftover cents. */
  lemma WinnersHaveRemainders(total: int, shares: int, s: seq<Portion>, i: nat)
    requires ExactPortions(total, shares, s) && shares > 0 && SumPortionShares(s) == shares && Sorted(s)
    requires i < total - SumCents(s)
    ensures i < |s| && s[i].remainder > 0
  {
    LeftoverBounds(total, shares, s);
    if s[i].remainder == 0 {
      forall j | i <= j < |s|
        ensures s[j].remainder == 0
      {
        if j > i {
          assert !Before(s[j], s[i]);
        }
        assert ExactPortion(total, shares, s[j]);
      }
      NonZeroBound(s, i);
    }
  }

  // ---- Allocate ----

  /** The cents of the unit at a place of the order: the first `left` get one more. */
  function AwardedCents(s: seq<Portion>, left: int, i: nat): int
    requires i < |s|
  {
    s[i].cents + if i < left then 1 else 0
  }

  function Awarded(s: seq<Portion>, left: int): seq<Allotment> {
    seq(|s|, i requires 0 <= i < |s| => Allotment(s[i].unit, Cents(AwardedCents(s, left, i))))
  }

  /** A result of splitting a total: the portions in some order, the first ones rounded up. */
  predicate IsSplit(total: int, units: seq<Unit>, order: seq<Portion>, r: seq<Allotment>) {
    && OrderedPortions(total, units, order)
    && r == Awarded(order, total - SumCents(order))
  }

  /** Allocate: quotients and remainders, the sort, then the leftover cents. */
  method Allocate(amount: Amount, units: seq<Unit>)
    returns (r: Result<seq<Allotment>>, ghost order: seq<Portion>)
    ensures r.Ok? <==> ValidInput(amount) && SharesAccepted(units)
    ensures r.Ok? ==> IsSplit(ToCents(amount), units, order, r.value)
  {
    hide Portions, SumCents, PortionOf, Before;
    if !ValidInput(amount) {
      return Err("invalid amount"), [];
    }
    var shares := TotalShares(units);
    if shares.Err? {
      return Err(shares.message), [];
    }
    ValidInputIsCents(amount);
    var portions, remaining := Divide(ToCents(amount), shares.value, units);
    ghost var listed := portions;
    portions := SortPortions(portions);
    SumCentsOfOrdering(portions, listed);
    var result := Distribute(portions, remaining);
    return Ok(result), portions;
  }

  method Divide(totalCents: int, shares: int, units: seq<Unit>) returns (portions: seq<Portion>, remaining: int)
    requires shares > 0
    ensures portions == Portions(totalCents, shares, units) && remaining == totalCents - SumCents(portions)
  {
    portions, remaining := [], totalCents;
    for i := 0 to |units|
      invariant portions == Portions(totalCents, shares, units[..i])
      invariant remaining == totalCents - SumCents(portions)
    {
      assert units[..i + 1][..i] == units[..i];
      if units[i].share != 0 {
        var p := PortionOf(totalCents, shares, units[i]);
        assert (portions + [p])[..|portions|] == portions;
        remaining := remaining - p.cents;
        portions := portions + [p];
      } else {
        assert portions + [] == portions;
      }
    }
    assert units[..|units|] == units;
  }

  method Distribute(sorted: seq<Portion>, remaining: int) returns (result: seq<Allotment>)
    ensures result == Awarded(sorted, remaining)
  {
    var portions := sorted;
    result := [];
    for i := 0 to |portions|
      invariant |portions| == |sorted| && |result| == i
      invariant forall j :: i <= j < |sorted| ==> portions[j] == sorted[j]
      invariant result == Awarded(sorted, remaining)[..i]
    {
      if i < remaining {
        portions := portions[i := portions[i].(cents := portions[i].cents + 1)];
      }
      result := result + [Allotment(portions[i].unit, Cents(portions[i].cents))];
    }
  }

  // ---- Sums do not depend on the order ----

  lemma {:induction false} SumCentsRemove(s: seq<Portion>, k: nat)
    requires k < |s|
    ensures SumCents(s) == SumCents(Without(s, k)) + s[k].cents
    ensures SumPortionShares(s) == SumPortionShares(Without(s, k)) + s[k].unit.share
    decreases |s|
  {
    var n := |s| - 1;
    var t := Without(s, k);
    if k == n {
      assert t == s[..n];
    } else {
      SumCentsRemove(s[..n], k);
      assert t[..n - 1] == Without(s[..n], k);
      assert t[n - 1] == s[n];
    }
  }

  lemma {:induction false} SumCentsOfOrdering(s: seq<Portion>, t: seq<Portion>)
    requires multiset(s) == multiset(t)
    ensures SumCents(s) == SumCents(t) && SumPortionShares(s) == SumPortionShares(t) && |s| == |t|
    decreases |s|
  {
    if s == [] {
      assert |multiset(t)| == 0;
    } else {
      var k := LastInPermutation(s, t);
      SumCentsRemove(t, k);
      SumCentsOfOrdering(s[..|s| - 1], Without(t, k));
    }
  }

  /** An ordering of the portions of accepted units. */
  predicate OrderedPortions(total: int, units: seq<Unit>, s: seq<Portion>) {
    total >= 0 && SharesAccepted(units) && IsOrdering(s, Portions(total, SumShares(units), units))
  }

  lemma OrderingIsExact(total: int, units: seq<Unit>, s: seq<Portion>)
    requires OrderedPortions(total, units, s)
    ensures ExactPortions(total, SumShares(units), s)
    ensures SumPortionShares(s) == SumShares(units)
  {
    var shares := SumShares(units);
    var p := Portions(total, shares, units);
    PortionsAreExact(total, shares, units);
    SumCentsOfOrdering(s, p);
    forall i | 0 <= i < |s|
      ensures ExactPortion(total, shares, s[i])
    {
      assert s[i] in multiset(s);
      assert s[i] in p;
    }
  }

  // ---- BudgetPreview ----

  /** The informative amounts per share, annual and monthly, to six decimals. */
  function AnnualPerShare(amount: Amount, shares: int): Amount
    requires shares > 0
  {
    Round6(amount / shares as real)
  }

  function MonthlyPerShare(amount: Amount, shares: int): Amount
    requires shares > 0
  {
    Round6(amount / (shares as real * 12.0))
  }

  datatype Preview = Preview(amount: Amount, totalShares: int, months: int, annual: Amount, monthly: Amount, ready: bool, message: string)

  /** A preview is ready exactly when Allocate would accept the same amount and units. */
  method BudgetPreview(amount: Amount, units: seq<Unit>) returns (p: Preview)
    ensures p.ready <==> ValidInput(amount) && SharesAccepted(units)
    ensures p.amount == amount && p.months == 12
    ensures SharesAccepted(units) ==>
              && p.totalShares == SumShares(units)
              && p.annual == AnnualPerShare(amount, SumShares(units))
              && p.monthly == MonthlyPerShare(amount, SumShares(units))
  {
    p := Preview(amount, 0, 12, 0.0, 0.0, false, "");
    var shares := TotalShares(units);
    if shares.Err? {
      return p.(message := shares.message);
    }
    p := p.(totalShares := shares.value,
            annual := AnnualPerShare(amount, shares.value),
            monthly := MonthlyPerShare(amount, shares.value));
    if !ValidInput(amount) {
      return p.(message := "add positive expenses to the cent before publication");
    }
    p := p.(ready := true);
  }
}

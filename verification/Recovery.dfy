/** The aggregate views of the ledger: the recovery summary of the dashboard
    (controllers/dashboard.go), the totals of a budget (controllers/budgets.go and
    controllers/financial.go), and their agreement with the cotisation rows. */
module Recovery {
  import opened Wrappers
  import opened Money
  import opened Ledger
  import opened LedgerDatabase
  import LedgerSafety

  // ---- SummarizeRecovery ----

  datatype Summary = Summary(called: Amount, paid: Amount, remaining: Amount, surplus: Amount, covered: Amount,
                             refunded: Amount, lots: nat, settled: nat, partial: nat, unpaid: nat, overpaid: nat)

  const NOTHING := Summary(0.0, 0.0, 0.0, 0.0, 0.0, 0.0, 0, 0, 0, 0, 0)

  function UnitsIn(rows: seq<CotisationResult>): set<string> {
    set i | 0 <= i < |rows| :: rows[i].unit
  }

  /** The rows that count: the first of each unit. */
  function Counted(rows: seq<CotisationResult>): seq<CotisationResult> {
    if rows == [] then []
    else
      var n := |rows| - 1;
      Counted(rows[..n]) + if rows[n].unit in UnitsIn(rows[..n]) then [] else [rows[n]]
  }

  /** Each unit counts once, by its first row. */
  lemma {:induction false} FirstRowsCount(rows: seq<CotisationResult>, u: string)
    ensures u in UnitsIn(rows) <==> exists r :: r in Counted(rows) && r.unit == u
    ensures forall r :: r in Counted(rows) && r.unit == u ==> FirstOf(rows, u) == Some(r)
    ensures forall i, j :: 0 <= i < j < |Counted(rows)| && Counted(rows)[i].unit == u ==> Counted(rows)[j].unit != u
    decreases |rows|
  {
    if rows != [] {
      var n := |rows| - 1;
      FirstRowsCount(rows[..n], u);
      var front, all := Counted(rows[..n]), Counted(rows);
      LastUnit(rows, u);
      FirstOfLonger(rows, u);
      assert forall r :: r in all <==> r in front || (r == rows[n] && rows[n].unit !in UnitsIn(rows[..n]));
      if rows[n].unit == u && u !in UnitsIn(rows[..n]) {
        assert forall i :: 0 <= i < |front| ==> front[i] in front && front[i].unit != u;
      }
    }
  }

  function FirstOf(rows: seq<CotisationResult>, u: string): Option<CotisationResult> {
    if rows == [] then None else if rows[0].unit == u then Some(rows[0]) else FirstOf(rows[1..], u)
  }

  lemma LastUnit(rows: seq<CotisationResult>, u: string)
    requires rows != []
    ensures u in UnitsIn(rows) <==> u in UnitsIn(rows[..|rows| - 1]) || rows[|rows| - 1].unit == u
  {
    var n := |rows| - 1;
    if u in UnitsIn(rows) {
      var i :| 0 <= i < |rows| && rows[i].unit == u;
      assert i < n ==> rows[..n][i].unit == u;
    }
    if u in UnitsIn(rows[..n]) {
      var i :| 0 <= i < n && rows[..n][i].unit == u;
      assert rows[i].unit == u;
    }
    assert rows[n].unit in UnitsIn(rows);
  }

  lemma {:induction false} FirstOfLonger(rows: seq<CotisationResult>, u: string)
    requires rows != []
    ensures var front := rows[..|rows| - 1];
            FirstOf(rows, u) == if u in UnitsIn(front) then FirstOf(front, u)
                                else if rows[|rows| - 1].unit == u then Some(rows[|rows| - 1]) else None
    decreases |rows|
  {
    var n := |rows| - 1;
    if n > 0 {
      assert rows[1..][..n - 1] == rows[..n][1..];
      if rows[0].unit == u {
        assert rows[..n][0].unit == u;
      } else {
        FirstOfLonger(rows[1..], u);
        TailUnit(rows[..n], u);
      }
    }
  }

  lemma TailUnit(rows: seq<CotisationResult>, u: string)
    requires rows != [] && rows[0].unit != u
    ensures u in UnitsIn(rows) <==> u in UnitsIn(rows[1..])
  {
    if u in UnitsIn(rows) {
      var i :| 0 <= i < |rows| && rows[i].unit == u;
      assert rows[1..][i - 1].unit == u;
    }
    if u in UnitsIn(rows[1..]) {
      var i :| 0 <= i < |rows| - 1 && rows[1..][i].unit == u;
      assert rows[i + 1].unit == u;
    }
  }

  function SumOf(rows: seq<CotisationResult>, f: CotisationResult -> Amount): Amount {
    if rows == [] then 0.0 else SumOf(rows[..|rows| - 1], f) + f(rows[|rows| - 1])
  }

  function CountOf(rows: seq<CotisationResult>, f: CotisationResult -> bool): nat {
    if rows == [] then 0 else CountOf(rows[..|rows| - 1], f) + if f(rows[|rows| - 1]) then 1 else 0
  }

  function Min(a: Amount, b: Amount): Amount {
    if a < b then a else b
  }

  function Positive(a: Amount): Amount {
    if a > 0.0 then a else 0.0
  }

  function CalledOf(r: CotisationResult): Amount { r.amount }
  function PaidOf(r: CotisationResult): Amount { r.paid }
  function RefundedOf(r: CotisationResult): Amount { r.refunded }
  function AdjustmentOf(r: CotisationResult): Amount { r.adjustment }
  function GrossPaidOf(r: CotisationResult): Amount { r.grossPaid }
  function InitialOf(r: CotisationResult): Amount { r.initialAmount }
  function RemainingOf(r: CotisationResult): Amount { Positive(r.amount - r.paid) }
  function SurplusOf(r: CotisationResult): Amount { Positive(r.paid - r.amount) }
  function CoveredOf(r: CotisationResult): Amount { Positive(Min(r.paid, r.amount)) }
  predicate IsSettled(r: CotisationResult) { r.paid >= r.amount }
  predicate IsOverpaid(r: CotisationResult) { r.paid > r.amount }
  predicate IsPartial(r: CotisationResult) { 0.0 < r.paid < r.amount }
  predicate IsUnpaid(r: CotisationResult) { r.paid < r.amount && r.paid <= 0.0 }

  /** A lot is settled, partial or unpaid, as its payment state and its payments say. */
  lemma LotIsOne(b: Books, c: Cotisation)
    ensures var r := RowOf(b, c);
            && (IsSettled(r) <==> r.paymentState == 1 || r.paymentState == 4)
            && (IsOverpaid(r) <==> r.paymentState == 4)
            && (IsPartial(r) <==> (r.paymentState == 2 || r.paymentState == 3) && r.paid > 0.0)
            && (IsUnpaid(r) <==> (r.paymentState == 2 || r.paymentState == 3) && r.paid <= 0.0)
  {}

  /** Each column of the summary on its own: a sum or a count over the rows that count. */
  predicate Summarises(s: Summary, counted: seq<CotisationResult>) {
    && s.lots == |counted|
    && s.called == SumOf(counted, CalledOf)
    && s.paid == SumOf(counted, PaidOf)
    && s.refunded == SumOf(counted, RefundedOf)
    && s.remaining == SumOf(counted, RemainingOf)
    && s.surplus == SumOf(counted, SurplusOf)
    && s.covered == SumOf(counted, CoveredOf)
    && s.settled == CountOf(counted, IsSettled)
    && s.overpaid == CountOf(counted, IsOverpaid)
    && s.partial == CountOf(counted, IsPartial)
    && s.unpaid == CountOf(counted, IsUnpaid)
  }

  /** Division to 16 digits, then a percentage to two. */
  function Rate(covered: Amount, called: Amount): real
    requires called > 0.0
  {
    var quotient := RoundInt(covered / called * 10000000000000000.0) as real / 10000000000000000.0;
    Round2(quotient * 100.0)
  }

  method SummarizeRecovery(rows: seq<CotisationResult>) returns (result: Summary, rate: Option<real>)
    ensures Summarises(result, Counted(rows))
    ensures rate == if result.called > 0.0 then Some(Rate(result.covered, result.called)) else None
  {
    result := NOTHING;
    var seen: set<string> := {};
    for i := 0 to |rows|
      invariant seen == UnitsIn(rows[..i])
      invariant Summarises(result, Counted(rows[..i]))
    {
      var r := rows[i];
      assert rows[..i + 1][..i] == rows[..i];
      assert UnitsIn(rows[..i + 1]) == UnitsIn(rows[..i]) + {r.unit} by {
        forall u | u in UnitsIn(rows[..i]) + {r.unit}
          ensures u in UnitsIn(rows[..i + 1])
        {
          if u in UnitsIn(rows[..i]) {
            var j :| 0 <= j < i && rows[..i][j].unit == u;
            assert rows[..i + 1][j].unit == u;
          } else {
            assert rows[..i + 1][i].unit == u;
          }
        }
      }
      if r.unit !in seen {
        result := Tally(result, Counted(rows[..i]), r);
      } else {
        assert Counted(rows[..i]) + [] == Counted(rows[..i]);
      }
      seen := seen + {r.unit};
    }
    assert rows[..|rows|] == rows;
    rate := if result.called > 0.0 then Some(Rate(result.covered, result.called)) else None;
  }

  /** The body of the loop for a unit that is seen for the first time. */
  method Tally(before: Summary, ghost counted: seq<CotisationResult>, r: CotisationResult) returns (result: Summary)
    requires Summarises(before, counted)
    ensures Summarises(result, counted + [r])
  {
    assert (counted + [r])[..|counted|] == counted;
    result := before.(lots := before.lots + 1, called := before.called + r.amount,
                      paid := before.paid + r.paid, refunded := before.refunded + r.refunded);
    var remaining := r.amount - r.paid;
    if remaining > 0.0 {
      result := result.(remaining := result.remaining + remaining);
      if r.paid > 0.0 {
        result := result.(partial := result.partial + 1);
      } else {
        result := result.(unpaid := result.unpaid + 1);
      }
    } else {
      result := result.(settled := result.settled + 1);
      if remaining < 0.0 {
        result := result.(overpaid := result.overpaid + 1, surplus := result.surplus + -remaining);
      }
    }
    var covered := r.paid;
    if covered > r.amount {
      covered := r.amount;
    }
    if covered > 0.0 {
      result := result.(covered := result.covered + covered);
    }
  }

  // ---- Identities of the summary ----

  lemma {:induction false} EveryLotOnce(rows: seq<CotisationResult>)
    ensures CountOf(rows, IsSettled) + CountOf(rows, IsPartial)
          + CountOf(rows, IsUnpaid) == |rows|
    ensures SumOf(rows, CalledOf) - SumOf(rows, PaidOf)
         == SumOf(rows, RemainingOf) - SumOf(rows, SurplusOf)
    decreases |rows|
  {
    if rows != [] {
      EveryLotOnce(rows[..|rows| - 1]);
    }
  }

  /** The smaller of what is called and what is paid is not negative. */
  predicate Sound(r: CotisationResult) {
    Min(r.paid, r.amount) >= 0.0
  }

  predicate AllSound(rows: seq<CotisationResult>) {
    forall i :: 0 <= i < |rows| ==> Sound(rows[i])
  }

  lemma {:induction false} CoverageOf(rows: seq<CotisationResult>)
    ensures SumOf(rows, CoveredOf) + SumOf(rows, RemainingOf)
         >= SumOf(rows, CalledOf)
    ensures (SumOf(rows, CoveredOf) + SumOf(rows, RemainingOf) == SumOf(rows, CalledOf)) <==> AllSound(rows)
    ensures SumOf(rows, CoveredOf) >= 0.0
    ensures SumOf(rows, RemainingOf) >= 0.0
    decreases |rows|
  {
    if rows != [] {
      var n := |rows| - 1;
      CoverageOf(rows[..n]);
      assert forall i :: 0 <= i < n ==> rows[..n][i] == rows[i];
      assert AllSound(rows) <==> AllSound(rows[..n]) && Sound(rows[n]);
    }
  }

  lemma RateInRange(covered: Amount, called: Amount)
    requires called > 0.0 && 0.0 <= covered <= called
    ensures 0.0 <= Rate(covered, called) <= 100.0
  {
    var q := covered / called;
    assert q * called == covered;
    assert 0.0 <= q <= 1.0;
    RoundIntMonotone(0.0, q * 10000000000000000.0);
    RoundIntMonotone(q * 10000000000000000.0, 10000000000000000.0);
    var quotient := RoundInt(q * 10000000000000000.0) as real / 10000000000000000.0;
    assert 0.0 <= quotient <= 1.0;
    RoundIntMonotone(0.0, quotient * 100.0 * 100.0);
    RoundIntMonotone(quotient * 100.0 * 100.0, 10000.0);
  }

  lemma SixteenDigits(q: real, n: int)
    requires -0.5 <= n as real - q * 10000000000000000.0 <= 0.5
    ensures -0.000000000000005 <= n as real / 10000000000000000.0 * 100.0 - q * 100.0 <= 0.000000000000005
  {}

  lemma Near(a: real, b: real, c: real)
    requires -0.005 <= a - b <= 0.005 && -0.000000000000005 <= b - c <= 0.000000000000005
    ensures -0.005000000000005 <= a - c <= 0.005000000000005
  {}

  lemma TwoDigits(p: real, n: int)
    requires -0.5 <= n as real - p * 100.0 <= 0.5
    ensures -0.005 <= n as real / 100.0 - p <= 0.005
    ensures WholeCents(n as real / 100.0)
  {
    assert n as real / 100.0 * 100.0 == n as real;
  }

  /** The rate is the percentage of the call that is covered, to the nearest hundredth up
      to the sixteen digits of the quotient. */
  lemma RateIsNearest(covered: Amount, called: Amount)
    requires called > 0.0
    ensures -0.005000000000005 <= Rate(covered, called) - covered / called * 100.0 <= 0.005000000000005
    ensures WholeCents(Rate(covered, called))
  {
    hide RoundInt, WholeCents;
    var q := covered / called;
    var n := RoundInt(q * 10000000000000000.0);
    RoundIntBound(q * 10000000000000000.0);
    SixteenDigits(q, n);
    var percentage := n as real / 10000000000000000.0 * 100.0;
    RoundIntBound(percentage * 100.0);
    TwoDigits(percentage, RoundInt(percentage * 100.0));
    assert Rate(covered, called) == RoundInt(percentage * 100.0) as real / 100.0;
    Near(Rate(covered, called), percentage, q * 100.0);
  }

  /** Called minus paid is remaining minus surplus, every lot is settled, partial or
      unpaid; what is covered and what remains make up the call exactly when every
      counted row is sound, and then the rate is within 0..100. */
  lemma SummaryAddsUp(rows: seq<CotisationResult>, s: Summary)
    requires Summarises(s, Counted(rows))
    ensures s.called - s.paid == s.remaining - s.surplus
    ensures s.lots == s.settled + s.partial + s.unpaid
    ensures (s.covered + s.remaining == s.called) <==> AllSound(Counted(rows))
    ensures s.covered + s.remaining == s.called && s.called > 0.0 ==> 0.0 <= Rate(s.covered, s.called) <= 100.0
  {
    EveryLotOnce(Counted(rows));
    CoverageOf(Counted(rows));
    if s.covered + s.remaining == s.called && s.called > 0.0 {
      RateInRange(s.covered, s.called);
    }
  }

  // ---- The totals of a budget ----

  datatype BudgetTotals = BudgetTotals(called: Amount, adjustment: Amount, refunded: Amount, grossPaid: Amount, paid: Amount)

  /** SUM over the cotisations of a budget. */
  function SumBudget(rows: seq<Cotisation>, budget: string, f: Cotisation -> Amount): Amount {
    if rows == [] then 0.0
    else
      var c := rows[|rows| - 1];
      SumBudget(rows[..|rows| - 1], budget, f) + if c.budget == budget then f(c) else 0.0
  }

  function BaseAmount(c: Cotisation): Amount { c.amount }

  function EntriesIn(entries: seq<Entry>, kind: Kind): Cotisation -> Amount {
    (c: Cotisation) => SumEntries(entries, c.id, kind)
  }

  function PaymentsIn(payments: seq<Payment>): Cotisation -> Amount {
    (c: Cotisation) => GrossPaid(payments, c.id)
  }

  function JoinedWith(p: Payment): Cotisation -> Amount {
    (c: Cotisation) => if c.id == p.cotisation then p.amount else 0.0
  }

  /** SUM over the payments joined with the cotisations of a budget. */
  function JoinedPaid(payments: seq<Payment>, rows: seq<Cotisation>, budget: string): Amount {
    if payments == [] then 0.0
    else
      var p := payments[|payments| - 1];
      JoinedPaid(payments[..|payments| - 1], rows, budget)
      + if p.deleted then 0.0 else SumBudget(rows, budget, JoinedWith(p))
  }

  predicate AsQueried(t: BudgetTotals, b: Books, budget: string) {
    && t.grossPaid == JoinedPaid(b.payments, b.cotisations, budget)
    && t.adjustment == SumBudget(b.cotisations, budget, EntriesIn(b.entries, Adjustment))
    && t.refunded == SumBudget(b.cotisations, budget, EntriesIn(b.entries, Refund))
    && t.called == SumBudget(b.cotisations, budget, BaseAmount) + t.adjustment
    && t.paid == t.grossPaid - t.refunded
  }

  /** ListBudgets and GetBudget with applyBudgetFinancialTotals: the payments come from
      one query over the payments, the rest from one over the cotisations. */
  method GetBudgetTotals(b: Books, budget: string) returns (t: BudgetTotals)
    ensures AsQueried(t, b, budget)
  {
    var called, adjustment, refunded := 0.0, 0.0, 0.0;
    for i := 0 to |b.cotisations|
      invariant called == SumBudget(b.cotisations[..i], budget, BaseAmount)
      invariant adjustment == SumBudget(b.cotisations[..i], budget, EntriesIn(b.entries, Adjustment))
      invariant refunded == SumBudget(b.cotisations[..i], budget, EntriesIn(b.entries, Refund))
    {
      assert b.cotisations[..i + 1][..i] == b.cotisations[..i];
      var c := b.cotisations[i];
      if c.budget == budget {
        called := called + c.amount;
        adjustment := adjustment + SumEntries(b.entries, c.id, Adjustment);
        refunded := refunded + SumEntries(b.entries, c.id, Refund);
      }
    }
    assert b.cotisations[..|b.cotisations|] == b.cotisations;
    t := BudgetTotals(0.0, 0.0, 0.0, 0.0, JoinedPaid(b.payments, b.cotisations, budget));
    t := t.(grossPaid := t.paid);
    t := t.(adjustment := adjustment, refunded := refunded);
    t := t.(called := called + t.adjustment);
    t := t.(paid := t.paid - t.refunded);
  }

  lemma {:induction false} JoinOfOne(rows: seq<Cotisation>, budget: string, payments: seq<Payment>, p: Payment)
    ensures SumBudget(rows, budget, PaymentsIn(payments + [p]))
         == SumBudget(rows, budget, PaymentsIn(payments))
            + if p.deleted then 0.0 else SumBudget(rows, budget, JoinedWith(p))
    decreases |rows|
  {
    if rows != [] {
      JoinOfOne(rows[..|rows| - 1], budget, payments, p);
      assert (payments + [p])[..|payments|] == payments;
    }
  }

  lemma {:induction false} NothingJoined(rows: seq<Cotisation>, budget: string)
    ensures SumBudget(rows, budget, PaymentsIn([])) == 0.0
    decreases |rows|
  {
    if rows != [] {
      NothingJoined(rows[..|rows| - 1], budget);
    }
  }

  /** Summing by payment or by cotisation gives the same total. */
  lemma {:induction false} JoinIsSumOfRows(payments: seq<Payment>, rows: seq<Cotisation>, budget: string)
    ensures JoinedPaid(payments, rows, budget) == SumBudget(rows, budget, PaymentsIn(payments))
    decreases |payments|
  {
    if payments == [] {
      NothingJoined(rows, budget);
    } else {
      var n := |payments| - 1;
      JoinIsSumOfRows(payments[..n], rows, budget);
      JoinOfOne(rows, budget, payments[..n], payments[n]);
      assert payments[..n] + [payments[n]] == payments;
    }
  }

  lemma {:induction false} RowsOfBudget(b: Books, rows: seq<Cotisation>, budget: string)
    ensures SumOf(ListRows(b, rows, budget), GrossPaidOf) == SumBudget(rows, budget, PaymentsIn(b.payments))
    ensures SumOf(ListRows(b, rows, budget), AdjustmentOf) == SumBudget(rows, budget, EntriesIn(b.entries, Adjustment))
    ensures SumOf(ListRows(b, rows, budget), RefundedOf) == SumBudget(rows, budget, EntriesIn(b.entries, Refund))
    ensures SumOf(ListRows(b, rows, budget), InitialOf) == SumBudget(rows, budget, BaseAmount)
    ensures SumOf(ListRows(b, rows, budget), CalledOf)
         == SumOf(ListRows(b, rows, budget), InitialOf) + SumOf(ListRows(b, rows, budget), AdjustmentOf)
    ensures SumOf(ListRows(b, rows, budget), PaidOf)
         == SumOf(ListRows(b, rows, budget), GrossPaidOf) - SumOf(ListRows(b, rows, budget), RefundedOf)
    decreases |rows|
  {
    hide GrossPaid, SumEntries, PaymentState;
    if rows != [] {
      var n := |rows| - 1;
      RowsOfBudget(b, rows[..n], budget);
      var front := ListRows(b, rows[..n], budget);
      if rows[n].budget == budget {
        assert (front + [RowOf(b, rows[n])])[..|front|] == front;
      } else {
        assert front + [] == front;
      }
    }
  }

  predicate IsTotalOf(t: BudgetTotals, rows: seq<CotisationResult>) {
    && t.called == SumOf(rows, CalledOf)
    && t.paid == SumOf(rows, PaidOf)
    && t.adjustment == SumOf(rows, AdjustmentOf)
    && t.refunded == SumOf(rows, RefundedOf)
    && t.grossPaid == SumOf(rows, GrossPaidOf)
  }

  /** Two views agree: the totals of a budget are the sums over its cotisation rows. */
  lemma TotalsAreSumsOfRows(b: Books, budget: string, t: BudgetTotals)
    requires AsQueried(t, b, budget)
    ensures IsTotalOf(t, ListRows(b, b.cotisations, budget))
  {
    hide GrossPaid, SumEntries;
    JoinIsSumOfRows(b.payments, b.cotisations, budget);
    RowsOfBudget(b, b.cotisations, budget);
  }

  predicate DistinctUnits(rows: seq<CotisationResult>) {
    forall i, j :: 0 <= i < j < |rows| ==> rows[i].unit != rows[j].unit
  }

  lemma {:induction false} AllCounted(rows: seq<CotisationResult>)
    requires DistinctUnits(rows)
    ensures Counted(rows) == rows
    decreases |rows|
  {
    if rows != [] {
      AllCounted(rows[..|rows| - 1]);
    }
  }

  /** The units of the listed rows are those of the cotisations of the budget. */
  lemma {:induction false} ListedUnits(b: Books, rows: seq<Cotisation>, budget: string, i: nat) returns (m: nat)
    requires i < |ListRows(b, rows, budget)|
    ensures m < |rows| && rows[m].budget == budget && rows[m].unit == ListRows(b, rows, budget)[i].unit
    decreases |rows|
  {
    var n := |rows| - 1;
    if i < |ListRows(b, rows[..n], budget)| {
      m := ListedUnits(b, rows[..n], budget, i);
    } else {
      m := n;
    }
  }

  lemma {:induction false} ListedOnce(b: Books, rows: seq<Cotisation>, budget: string)
    requires OnePerUnit(rows)
    ensures DistinctUnits(ListRows(b, rows, budget))
    decreases |rows|
  {
    if rows != [] {
      var n := |rows| - 1;
      ListedOnce(b, rows[..n], budget);
      var front, all := ListRows(b, rows[..n], budget), ListRows(b, rows, budget);
      forall i | 0 <= i < |front|
        ensures rows[n].budget == budget ==> front[i].unit != rows[n].unit
      {
        var m := ListedUnits(b, rows[..n], budget, i);
      }
    }
  }

  /** In every state that the ledger can reach, the dashboard and the budget show the same
      called, net paid and refunded amounts, and every cotisation is a lot. */
  lemma DashboardAgreesWithBudget(k: Codec, run: seq<Books>, i: nat, budget: string, t: BudgetTotals, s: Summary)
    requires LedgerSafety.IsRun(k, run) && i < |run|
    requires AsQueried(t, run[i], budget)
    requires Summarises(s, Counted(ListRows(run[i], run[i].cotisations, budget)))
    ensures s.called == t.called && s.paid == t.paid && s.refunded == t.refunded
    ensures s.lots == |ListRows(run[i], run[i].cotisations, budget)|
  {
    var b := run[i];
    LedgerSafety.RunsAreExact(k, run, i);
    ListedOnce(b, b.cotisations, budget);
    TotalsAreSumsOfRows(b, budget, t);
    hide ListRows, SumOf, LedgerSafety.IsRun, LedgerSafety.InCents, OnePerUnit;
    AllCounted(ListRows(b, b.cotisations, budget));
  }

  /** In every state of the ledger, the rows are sound. */
  lemma {:induction false} LedgerRowsAreSound(b: Books, rows: seq<Cotisation>, budget: string, i: nat)
    requires forall j :: 0 <= j < |rows| ==> Called(b, rows[j]) >= 0.0 && Paid(b, rows[j]) >= 0.0
    requires i < |ListRows(b, rows, budget)|
    ensures Sound(ListRows(b, rows, budget)[i])
    decreases |rows|
  {
    var n := |rows| - 1;
    assert forall j :: 0 <= j < n ==> rows[..n][j] == rows[j];
    if i < |ListRows(b, rows[..n], budget)| {
      LedgerRowsAreSound(b, rows[..n], budget, i);
    } else {
      assert Called(b, rows[n]) >= 0.0 && Paid(b, rows[n]) >= 0.0;
    }
  }

  lemma {:induction false} CountedAreRows(rows: seq<CotisationResult>, r: CotisationResult)
    requires r in Counted(rows)
    ensures r in rows
    decreases |rows|
  {
    var n := |rows| - 1;
    if r in Counted(rows[..n]) {
      CountedAreRows(rows[..n], r);
    }
  }

  /** In every state that the ledger can reach, the dashboard of a budget adds up. */
  lemma DashboardAddsUp(k: Codec, run: seq<Books>, i: nat, budget: string, s: Summary)
    requires LedgerSafety.IsRun(k, run) && i < |run|
    requires Summarises(s, Counted(ListRows(run[i], run[i].cotisations, budget)))
    ensures s.covered + s.remaining == s.called
    ensures s.called > 0.0 ==> 0.0 <= Rate(s.covered, s.called) <= 100.0
  {
    var b := run[i];
    var rows := ListRows(b, b.cotisations, budget);
    LedgerSafety.RunsAreGood(k, run, i);
    forall m | 0 <= m < |Counted(rows)|
      ensures Sound(Counted(rows)[m])
    {
      CountedAreRows(rows, Counted(rows)[m]);
      var j :| 0 <= j < |rows| && rows[j] == Counted(rows)[m];
      LedgerRowsAreSound(b, b.cotisations, budget, j);
    }
    SummaryAddsUp(rows, s);
  }
}

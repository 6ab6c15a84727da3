/** The handlers and controllers of the ledger in their own form: searches over rows,
    a stamp grown piece by piece, tables written inside a transaction. Each is proved
    against the specification in Ledger. */
module LedgerDatabase {
  import opened Wrappers
  import opened Money
  import opened Ledger

  /** The rows of ListCotisations, in table order. */
  function ListRows(b: Books, rows: seq<Cotisation>, budget: string): seq<CotisationResult> {
    if rows == [] then []
    else ListRows(b, rows[..|rows| - 1], budget)
         + if rows[|rows| - 1].budget == budget then [RowOf(b, rows[|rows| - 1])] else []
  }

  lemma Appended(head: string, text: string, a: string, b: string, c: string)
    ensures head + (text + "/" + a + "/" + b + "/" + c) == head + text + ("/" + a + "/" + b + "/" + c)
  {
    assert text + "/" + a + "/" + b + "/" + c == text + ("/" + a + "/" + b + "/" + c);
  }

  lemma PaymentStampsNext(k: Codec, head: string, s: seq<Payment>, i: nat)
    requires i < |s|
    ensures head + PaymentStamps(k, s[..i + 1])
         == head + PaymentStamps(k, s[..i]) + ("/" + s[i].id + "/" + s[i].updatedAt + "/" + k.show(s[i].amount))
  {
    assert s[..i + 1][..i] == s[..i];
    Appended(head, PaymentStamps(k, s[..i]), s[i].id, s[i].updatedAt, k.show(s[i].amount));
  }

  lemma EntryStampsNext(head: string, s: seq<Entry>, i: nat)
    requires i < |s|
    ensures head + EntryStamps(s[..i + 1]) == head + EntryStamps(s[..i]) + ("/" + s[i].id)
  {
    assert s[..i + 1][..i] == s[..i];
    assert EntryStamps(s[..i]) + "/" + s[i].id == EntryStamps(s[..i]) + ("/" + s[i].id);
  }

  class Database {
    var budgets: map<string, bool>
    var cotisations: seq<Cotisation>
    var payments: seq<Payment>
    var entries: seq<Entry>

    function State(): Books
      reads this
    {
      Books(budgets, cotisations, payments, entries)
    }

    constructor (budgets: map<string, bool>)
      ensures State() == Books(budgets, [], [], [])
    {
      this.budgets, cotisations, payments, entries := budgets, [], [], [];
    }

    /** ListCotisations: the queried columns, rewritten row by row. */
    method ListCotisations(budget: string) returns (r: Result<seq<CotisationResult>>)
      ensures r.Ok? <==> budget in budgets
      ensures r.Ok? ==> r.value == ListRows(State(), cotisations, budget)
    {
      if budget !in budgets {
        return Err("budget not found");
      }
      var result: seq<CotisationResult> := [];
      for i := 0 to |cotisations|
        invariant result == ListRows(State(), cotisations[..i], budget)
      {
        assert cotisations[..i + 1][..i] == cotisations[..i];
        var c := cotisations[i];
        if c.budget == budget {
          var row := CotisationResult(c.id, c.unit, c.amount, SumEntries(entries, c.id, Adjustment),
                                      GrossPaid(payments, c.id), SumEntries(entries, c.id, Refund), c.amount, 0.0, 0.0, 0);
          row := row.(amount := row.amount + row.adjustment);
          row := row.(paid := row.grossPaid - row.refunded);
          row := row.(remaining := row.amount - row.paid);
          if row.paid > row.amount {
            row := row.(paymentState := 4);
          } else if row.paid == row.amount {
            row := row.(paymentState := 1);
          } else if row.paid + row.paid >= row.amount {
            row := row.(paymentState := 2);
          } else {
            row := row.(paymentState := 3);
          }
          result := result + [row];
        }
      }
      assert cotisations[..|cotisations|] == cotisations;
      return Ok(result);
    }

    method FindRow(budget: string, cid: string) returns (c: Option<Cotisation>)
      ensures c == FindCotisation(cotisations, budget, cid)
    {
      for i := 0 to |cotisations|
        invariant FindCotisation(cotisations, budget, cid) == FindCotisation(cotisations[i..], budget, cid)
      {
        assert cotisations[i..][1..] == cotisations[i + 1..];
        if cotisations[i].budget == budget && cotisations[i].id == cid {
          return Some(cotisations[i]);
        }
      }
      return None;
    }

    /** The stamp: the leading fields, then every payment and entry of the cotisation. */
    method BuildStamp(k: Codec, row: CotisationResult, e: Entry, reverses: string) returns (stamp: string)
      ensures stamp == Stamp(k, State(), row, e, reverses)
    {
      hide SortedById, PaymentsOf, EntriesOf, Joined, PaymentStamps, EntryStamps, StampFields;
      var sorted, mine := SortedById(PaymentsOf(payments, row.id)), EntriesOf(entries, row.id);
      var head := e.reason + "/" + e.reference + "/" + reverses;
      stamp := AddPayments(k, head, sorted);
      stamp := AddEntries(stamp, mine);
      stamp := Joined(StampFields(k, row, e), stamp);
    }

    method AddPayments(k: Codec, head: string, sorted: seq<Payment>) returns (stamp: string)
      ensures stamp == head + PaymentStamps(k, sorted)
    {
      stamp := head;
      assert head + "" == head;
      for i := 0 to |sorted|
        invariant stamp == head + PaymentStamps(k, sorted[..i])
      {
        PaymentStampsNext(k, head, sorted, i);
        stamp := stamp + ("/" + sorted[i].id + "/" + sorted[i].updatedAt + "/" + k.show(sorted[i].amount));
      }
      assert sorted[..|sorted|] == sorted;
    }

    method AddEntries(head: string, mine: seq<Entry>) returns (stamp: string)
      ensures stamp == head + EntryStamps(mine)
    {
      stamp := head;
      assert head + "" == head;
      for i := 0 to |mine|
        invariant stamp == head + EntryStamps(mine[..i])
      {
        EntryStampsNext(head, mine, i);
        stamp := stamp + ("/" + mine[i].id);
      }
      assert mine[..|mine|] == mine;
    }

    /** The loop over the entries when a reversal is asked for. */
    method SearchOriginal(mine: seq<Entry>, id: string) returns (already: bool, original: Option<Entry>)
      ensures already == Reversed(mine, id)
      ensures !already ==> original == Original(mine, id)
    {
      already, original := false, None;
      for i := 0 to |mine|
        invariant forall j :: 0 <= j < i ==> mine[j].reverses != Some(id)
        invariant original == Original(mine[..i], id)
      {
        assert mine[..i + 1][..i] == mine[..i];
        if mine[i].reverses == Some(id) {
          return true, None;
        }
        if mine[i].id == id {
          original := Some(mine[i]);
        }
      }
      assert mine[..|mine|] == mine;
    }

    method Propose(k: Codec, row: CotisationResult, x: Input) returns (r: Result<Entry>)
      ensures r == Proposed(k, State(), row, x)
    {
      var kind := if x.kind == "refund" then Refund else Adjustment;
      var e := Entry(x.id, row.id, kind, x.amount, x.date, k.trim(x.reason), k.trim(x.reference), None);
      if x.reverses != "" {
        if !k.isUuid(x.reverses) {
          return Err("invalid operation to reverse");
        }
        var already, original := SearchOriginal(EntriesOf(entries, row.id), x.reverses);
        if already {
          return Err("already reversed");
        }
        if original.None? || original.value.reverses.Some? || original.value.kind != kind {
          return Err("cannot be reversed here");
        }
        e := e.(amount := -original.value.amount, reverses := Some(x.reverses));
      } else {
        if !ValidInput(if x.amount < 0.0 then -x.amount else x.amount) {
          return Err("invalid amount");
        }
        if kind.Refund? && (x.amount <= 0.0 || x.amount > row.paid - row.amount) {
          return Err("refund exceeds surplus");
        }
      }
      return Ok(e);
    }

    method FinancialEffect(k: Codec, budget: string, cid: string, x: Input) returns (r: Result<Effect>)
      ensures r == EffectOf(k, State(), budget, cid, x)
    {
      hide Proposed, Stamp, RowOf;
      if !TextAccepted(k, x) {
        return Err("invalid input");
      }
      if budget !in budgets {
        return Err("budget not found");
      }
      if budgets[budget] {
        return Err("budget is a draft");
      }
      var c := FindRow(budget, cid);
      if c.None? || !k.isUuid(cid) {
        return Err("cotisation not found");
      }
      var row := RowOf(State(), c.value);
      var proposed := Propose(k, row, x);
      if proposed.Err? {
        return Err(proposed.message);
      }
      var e := proposed.value;
      var preview := Preview(row.amount, row.amount, row.paid, row.paid, 0.0, "");
      if e.kind.Adjustment? {
        preview := preview.(calledAfter := preview.calledAfter + e.amount);
      } else {
        preview := preview.(paidAfter := preview.paidAfter - e.amount);
      }
      if preview.calledAfter < 0.0 || preview.paidAfter < 0.0 {
        return Err("negative amount");
      }
      preview := preview.(remainingAfter := preview.calledAfter - preview.paidAfter);
      var stamp := BuildStamp(k, row, e, x.reverses);
      preview := preview.(version := k.hash(stamp));
      return Ok(Effect(e, preview));
    }

    /** CreateFinancialEntry: the effect is recomputed under the lock; a version that no
        longer matches rolls the transaction back. */
    method CreateFinancialEntry(k: Codec, budget: string, cid: string, x: Input) returns (r: Result<Entry>)
      modifies this`entries
      ensures r.Ok? ==> Commit(k, old(State()), CreateEntry(budget, cid, x)) == Ok(State()) && entries == old(entries) + [r.value]
      ensures r.Err? ==> Commit(k, old(State()), CreateEntry(budget, cid, x)) == Err(r.message) && State() == old(State())
    {
      hide EffectOf;
      var e := FinancialEffect(k, budget, cid, x);
      if e.Err? {
        return Err(e.message);
      }
      if x.version == "" || x.version != e.value.preview.version {
        return Err("stale preview");
      }
      if KnownId(entries, x.id) {
        return Err("already recorded");
      }
      entries := entries + [e.value.entry];
      return Ok(e.value.entry);
    }

    method CreatePayment(k: Codec, budget: string, cid: string, p: Payment) returns (r: Result<Payment>)
      modifies this`payments
      ensures r.Ok? ==> Commit(k, old(State()), Step.CreatePayment(budget, cid, p)) == Ok(State())
      ensures r.Err? ==> Commit(k, old(State()), Step.CreatePayment(budget, cid, p)) == Err(r.message) && State() == old(State())
    {
      if !ValidInput(p.amount) {
        return Err("invalid amount");
      }
      var c := FindRow(budget, cid);
      if budget !in budgets || c.None? {
        return Err("not found");
      }
      var row := p.(cotisation := cid, deleted := false);
      payments := payments + [row];
      return Ok(row);
    }

    method FindLive(cid: string, pid: string) returns (i: Option<nat>)
      ensures i == FindPayment(payments, cid, pid)
      ensures i.Some? ==> i.value < |payments|
    {
      FoundPayment(payments, cid, pid);
      for j := 0 to |payments|
        invariant FindPayment(payments[j..], cid, pid).None? ==> FindPayment(payments, cid, pid).None?
        invariant FindPayment(payments[j..], cid, pid).Some? ==>
                    FindPayment(payments, cid, pid) == Some(FindPayment(payments[j..], cid, pid).value + j)
      {
        assert payments[j..][1..] == payments[j + 1..];
        if payments[j].id == pid && payments[j].cotisation == cid && !payments[j].deleted {
          return Some(j);
        }
      }
      return None;
    }

    method UpdatePayment(k: Codec, budget: string, cid: string, pid: string, amount: Amount, updatedAt: string)
      returns (r: Result<()>)
      modifies this`payments
      ensures r.Ok? ==> Commit(k, old(State()), Step.UpdatePayment(budget, cid, pid, amount, updatedAt)) == Ok(State())
      ensures r.Err? ==> Commit(k, old(State()), Step.UpdatePayment(budget, cid, pid, amount, updatedAt)) == Err(r.message)
                         && State() == old(State())
    {
      if !ValidInput(amount) {
        return Err("invalid amount");
      }
      var c := FindRow(budget, cid);
      var i := FindLive(cid, pid);
      if budget !in budgets || c.None? || i.None? {
        return Err("not found");
      }
      var covered := GuardPaymentReduction(cid, payments[i.value].amount - amount);
      if !covered {
        return Err("already refunded");
      }
      payments := payments[i.value := payments[i.value].(amount := amount, updatedAt := updatedAt)];
      return Ok(());
    }

    method DeletePayment(k: Codec, budget: string, cid: string, pid: string) returns (r: Result<()>)
      modifies this`payments
      ensures r.Ok? ==> Commit(k, old(State()), Step.DeletePayment(budget, cid, pid)) == Ok(State())
      ensures r.Err? ==> Commit(k, old(State()), Step.DeletePayment(budget, cid, pid)) == Err(r.message) && State() == old(State())
    {
      var c := FindRow(budget, cid);
      var i := FindLive(cid, pid);
      if budget !in budgets || c.None? || i.None? {
        return Err("not found");
      }
      var covered := GuardPaymentReduction(cid, payments[i.value].amount);
      if !covered {
        return Err("already refunded");
      }
      payments := payments[i.value := payments[i.value].(deleted := true)];
      return Ok(());
    }

    /** GuardPaymentReduction: the two sums of the query, compared after the reduction. */
    method GuardPaymentReduction(cid: string, reduction: Amount) returns (covered: bool)
      ensures covered == MayReduce(State(), cid, reduction)
    {
      var paid := 0.0;
      for i := 0 to |payments|
        invariant paid == GrossPaid(payments[..i], cid)
      {
        assert payments[..i + 1][..i] == payments[..i];
        if payments[i].cotisation == cid && !payments[i].deleted {
          paid := paid + payments[i].amount;
        }
      }
      var refunded := 0.0;
      for i := 0 to |entries|
        invariant refunded == SumEntries(entries[..i], cid, Refund)
      {
        assert entries[..i + 1][..i] == entries[..i];
        if entries[i].cotisation == cid && entries[i].kind.Refund? {
          refunded := refunded + entries[i].amount;
        }
      }
      assert payments[..|payments|] == payments && entries[..|entries|] == entries;
      covered := paid - reduction >= refunded;
    }
  }
}

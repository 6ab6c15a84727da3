/** Exactly when the ledger takes an operation, and what the operation does to the amounts
    of its cotisation, in terms of the books alone. */
module LedgerOperations {
  import opened Wrappers
  import opened Money
  import opened Ledger
  import opened LedgerSafety

  function Abs(a: Amount): Amount {
    if a < 0.0 then -a else a
  }

  /** Only a surplus can be given back. */
  predicate MayRefund(b: Books, c: Cotisation, amount: Amount) {
    ValidInput(amount) && amount <= Paid(b, c) - Called(b, c)
  }

  predicate MayAdjust(b: Books, c: Cotisation, amount: Amount) {
    ValidInput(Abs(amount)) && Called(b, c) + amount >= 0.0
  }

  /** The entry is an original of that kind on the cotisation, and nothing reverses it. */
  predicate IsOpen(b: Books, c: Cotisation, kind: Kind, e: Entry) {
    e in b.entries && e.cotisation == c.id && e.kind == kind && e.reverses.None? && !Reversed(b.entries, e.id)
  }

  predicate MayReverse(b: Books, c: Cotisation, kind: Kind, id: string) {
    exists e :: e in b.entries && e.id == id && IsOpen(b, c, kind, e) && (kind.Adjustment? ==> Called(b, c) >= e.amount)
  }

  function KindOf(x: Input): Kind {
    if x.kind == "refund" then Refund else Adjustment
  }

  predicate MayEnter(k: Codec, b: Books, c: Cotisation, x: Input) {
    if x.reverses != "" then k.isUuid(x.reverses) && MayReverse(b, c, KindOf(x), x.reverses)
    else if KindOf(x).Refund? then MayRefund(b, c, x.amount)
    else MayAdjust(b, c, x.amount)
  }

  // ---- Reversals ----

  lemma {:induction false} OriginalIsUnique(entries: seq<Entry>, e: Entry)
    requires e in entries
    requires forall i, j :: 0 <= i < j < |entries| ==> entries[i].id != entries[j].id
    ensures Original(entries, e.id) == Some(e)
    decreases |entries|
  {
    var n := |entries| - 1;
    var i :| 0 <= i < |entries| && entries[i] == e;
    if i < n {
      assert entries[..n][i] == e;
      OriginalIsUnique(entries[..n], e);
    }
  }

  lemma {:induction false} DistinctMine(entries: seq<Entry>, cid: string)
    requires forall i, j :: 0 <= i < j < |entries| ==> entries[i].id != entries[j].id
    ensures var mine := EntriesOf(entries, cid);
            forall i, j :: 0 <= i < j < |mine| ==> mine[i].id != mine[j].id
    decreases |entries|
  {
    if entries != [] {
      DistinctMine(entries[1..], cid);
      var rest := EntriesOf(entries[1..], cid);
      forall j | 0 <= j < |rest|
        ensures rest[j].id != entries[0].id
      {
        EntryOf(entries[1..], cid, rest[j]);
      }
    }
  }

  lemma ReversedAmongMine(entries: seq<Entry>, cid: string, id: string)
    requires Reversed(EntriesOf(entries, cid), id)
    ensures Reversed(entries, id)
  {
    var mine := EntriesOf(entries, cid);
    var i :| 0 <= i < |mine| && mine[i].reverses == Some(id);
    EntryOf(entries, cid, mine[i]);
    var m :| 0 <= m < |entries| && entries[m] == mine[i];
  }

  /** An open entry is what the search of Propose finds. */
  lemma OpenIsFound(b: Books, c: Cotisation, kind: Kind, e: Entry)
    requires WellReversed(b.entries) && IsOpen(b, c, kind, e)
    ensures var mine := EntriesOf(b.entries, c.id);
            !Reversed(mine, e.id) && Original(mine, e.id) == Some(e)
  {
    DistinctMine(b.entries, c.id);
    EntryOf(b.entries, c.id, e);
    OriginalIsUnique(EntriesOf(b.entries, c.id), e);
    if Reversed(EntriesOf(b.entries, c.id), e.id) {
      ReversedAmongMine(b.entries, c.id, e.id);
    }
  }

  lemma ReversalIff(k: Codec, b: Books, c: Cotisation, x: Input)
    requires WellReversed(b.entries) && x.reverses != ""
    ensures var r := Proposed(k, b, RowOf(b, c), x);
            && (r.Ok? <==> k.isUuid(x.reverses) && exists e :: e in b.entries && e.id == x.reverses && IsOpen(b, c, KindOf(x), e))
            && forall e :: r.Ok? && IsOpen(b, c, KindOf(x), e) && e.id == x.reverses ==> r.value.amount == -e.amount
  {
    hide WellReversed;
    var r := Proposed(k, b, RowOf(b, c), x);
    if r.Ok? {
      var j := AcceptedReversal(k, b, RowOf(b, c), x);
      assert IsOpen(b, c, KindOf(x), b.entries[j]);
    }
    forall e | e in b.entries && e.id == x.reverses && IsOpen(b, c, KindOf(x), e)
      ensures k.isUuid(x.reverses) ==> r.Ok? && r.value.amount == -e.amount
    {
      OpenIsFound(b, c, KindOf(x), e);
    }
  }

  // ---- Exactly the permitted operations ----

  /** What an operation announces, when it is one of the permitted ones. */
  lemma EnterIff(k: Codec, b: Books, c: Cotisation, x: Input)
    requires Good(b) && c in b.cotisations
    ensures var row := RowOf(b, c);
            var e := Proposed(k, b, row, x);
            (e.Ok? && PreviewOf(row, e.value, "").calledAfter >= 0.0 && PreviewOf(row, e.value, "").paidAfter >= 0.0)
            <==> MayEnter(k, b, c, x)
  {
    var row := RowOf(b, c);
    var i :| 0 <= i < |b.cotisations| && b.cotisations[i] == c;
    assert Called(b, c) >= 0.0 && Paid(b, c) >= 0.0;
    if x.reverses != "" {
      ReversalIff(k, b, c, x);
      OpenRefundIsPositive(b, c);
      assert forall e :: e in b.entries && e.id == x.reverses && IsOpen(b, c, KindOf(x), e) ==>
          (MayReverse(b, c, KindOf(x), x.reverses) <== (KindOf(x).Adjustment? ==> Called(b, c) >= e.amount));
    } else {
      ValidIsPositive(x.amount);
    }
  }

  lemma ValidIsPositive(a: Amount)
    ensures ValidInput(a) ==> a > 0.0
  {}

  lemma OpenRefundIsPositive(b: Books, c: Cotisation)
    requires WellReversed(b.entries)
    ensures forall e :: IsOpen(b, c, Refund, e) ==> e.amount > 0.0
  {}

  predicate OnPublished(k: Codec, b: Books, budget: string, cid: string) {
    && budget in b.budgets && !b.budgets[budget] && k.isUuid(cid)
    && FindCotisation(b.cotisations, budget, cid).Some?
  }

  /** A preview is shown exactly for an accepted text, a cotisation of a published budget
      and a permitted operation. */
  lemma PreviewIff(k: Codec, b: Books, budget: string, cid: string, x: Input)
    requires Good(b)
    ensures EffectOf(k, b, budget, cid, x).Ok? <==>
              && TextAccepted(k, x) && OnPublished(k, b, budget, cid)
              && MayEnter(k, b, FindCotisation(b.cotisations, budget, cid).value, x)
  {
    hide Good, Proposed, RowOf, MayEnter, Stamp, TextAccepted;
    CotisationFound(b.cotisations, budget, cid);
    var c := FindCotisation(b.cotisations, budget, cid);
    if c.Some? {
      EnterIff(k, b, c.value, x);
    }
  }

  /** An operation commits exactly when its preview would be shown now, with that version,
      and its ID is new. */
  lemma CommitsIff(k: Codec, b: Books, budget: string, cid: string, x: Input)
    requires Good(b)
    ensures Commit(k, b, CreateEntry(budget, cid, x)).Ok? <==>
              && TextAccepted(k, x) && OnPublished(k, b, budget, cid)
              && MayEnter(k, b, FindCotisation(b.cotisations, budget, cid).value, x)
              && EffectOf(k, b, budget, cid, x).Ok? && x.version == EffectOf(k, b, budget, cid, x).value.preview.version
              && x.version != "" && forall e :: e in b.entries ==> e.id != x.id
  {
    hide Good, EffectOf, MayEnter, TextAccepted;
    PreviewIff(k, b, budget, cid, x);
    if KnownId(b.entries, x.id) {
      var i :| 0 <= i < |b.entries| && b.entries[i].id == x.id;
      assert b.entries[i] in b.entries;
    } else {
      forall e | e in b.entries
        ensures e.id != x.id
      {
        var i :| 0 <= i < |b.entries| && b.entries[i] == e;
      }
    }
  }

  // ---- What an operation does ----

  /** The amounts of the cotisation after an operation: a refund lowers what is paid and
      leaves at least what is called, an adjustment changes what is called, a reversal
      takes back what its original did. */
  predicate Does(b: Books, b': Books, c: Cotisation, x: Input) {
    if x.reverses != "" then
      exists e :: e in b.entries && e.id == x.reverses && IsOpen(b, c, KindOf(x), e)
        && Called(b', c) == Called(b, c) - (if e.kind.Adjustment? then e.amount else 0.0)
        && Paid(b', c) == Paid(b, c) + if e.kind.Refund? then e.amount else 0.0
    else if KindOf(x).Refund? then
      x.amount > 0.0 && Called(b', c) == Called(b, c) && Paid(b', c) == Paid(b, c) - x.amount && Paid(b', c) >= Called(b', c)
    else
      x.amount != 0.0 && Called(b', c) == Called(b, c) + x.amount >= 0.0 && Paid(b', c) == Paid(b, c)
  }

  /** The entry behind a preview, and the amounts that it announces. */
  lemma EffectParts(k: Codec, b: Books, budget: string, cid: string, x: Input)
    requires EffectOf(k, b, budget, cid, x).Ok?
    ensures var c := FindCotisation(b.cotisations, budget, cid);
            var e, p := EffectOf(k, b, budget, cid, x).value.entry, EffectOf(k, b, budget, cid, x).value.preview;
            && c.Some? && Proposed(k, b, RowOf(b, c.value), x) == Ok(e)
            && p.calledAfter == Called(b, c.value) + (if e.kind.Adjustment? then e.amount else 0.0)
            && p.paidAfter == Paid(b, c.value) - (if e.kind.Refund? then e.amount else 0.0)
  {
    hide Proposed, Stamp, TextAccepted;
  }

  lemma ProposedParts(k: Codec, b: Books, c: Cotisation, x: Input)
    requires Proposed(k, b, RowOf(b, c), x).Ok?
    ensures var e := Proposed(k, b, RowOf(b, c), x).value;
            && e.id == x.id && e.cotisation == c.id && e.kind == KindOf(x) && e.date == x.date
            && e.reverses == (if x.reverses == "" then None else Some(x.reverses))
            && (x.reverses == "" ==> e.amount == x.amount)
  {}

  lemma OtherRow(b: Books, e: Entry, d: Cotisation)
    requires e.cotisation != d.id
    ensures var b' := b.(entries := b.entries + [e]); Called(b', d) == Called(b, d) && Paid(b', d) == Paid(b, d)
  {
    SumEntriesAppend(b.entries, e, d.id, Refund);
    SumEntriesAppend(b.entries, e, d.id, Adjustment);
  }

  lemma CommitAppends(k: Codec, b: Books, budget: string, cid: string, x: Input)
    requires Commit(k, b, CreateEntry(budget, cid, x)).Ok?
    ensures EffectOf(k, b, budget, cid, x).Ok?
    ensures Commit(k, b, CreateEntry(budget, cid, x)).value == b.(entries := b.entries + [EffectOf(k, b, budget, cid, x).value.entry])
  {
    hide EffectOf;
  }

  lemma OperationDoes(k: Codec, b: Books, budget: string, cid: string, x: Input)
    requires Good(b) && Commit(k, b, CreateEntry(budget, cid, x)).Ok?
    ensures var b' := Commit(k, b, CreateEntry(budget, cid, x)).value;
            var c := FindCotisation(b.cotisations, budget, cid);
            && c.Some? && Does(b, b', c.value, x)
            && (forall d :: d in b.cotisations && d.id != cid ==> Called(b', d) == Called(b, d) && Paid(b', d) == Paid(b, d))
  {
    hide EffectOf, Commit, Good, MayRefund, MayAdjust, Proposed, ValidInput;
    CommitAppends(k, b, budget, cid, x);
    var e := EffectOf(k, b, budget, cid, x).value.entry;
    EffectParts(k, b, budget, cid, x);
    RowAfterEntry(k, b, budget, cid, x);
    CotisationFound(b.cotisations, budget, cid);
    PreviewIff(k, b, budget, cid, x);
    var c := FindCotisation(b.cotisations, budget, cid).value;
    ProposedParts(k, b, c, x);
    EntryDoes(k, b, b.(entries := b.entries + [e]), c, x, e);
    forall d | d in b.cotisations && d.id != cid
      ensures var b' := b.(entries := b.entries + [e]); Called(b', d) == Called(b, d) && Paid(b', d) == Paid(b, d)
    {
      OtherRow(b, e, d);
    }
  }

  lemma EntryDoes(k: Codec, b: Books, b': Books, c: Cotisation, x: Input, e: Entry)
    requires Good(b) && Proposed(k, b, RowOf(b, c), x) == Ok(e) && MayEnter(k, b, c, x)
    requires e.kind == KindOf(x) && (x.reverses == "" ==> e.amount == x.amount)
    requires Called(b', c) == Called(b, c) + (if e.kind.Adjustment? then e.amount else 0.0)
    requires Paid(b', c) == Paid(b, c) - (if e.kind.Refund? then e.amount else 0.0)
    ensures Does(b, b', c, x)
  {
    hide WellReversed, Proposed, RowOf, Called, Paid;
    if x.reverses != "" {
      ReversalIff(k, b, c, x);
      var o :| o in b.entries && o.id == x.reverses && IsOpen(b, c, KindOf(x), o);
      assert e.amount == -o.amount;
    } else {
      ValidIsPositive(x.amount);
      ValidIsPositive(-x.amount);
    }
  }

  /** The new row, and nothing else. */
  lemma EntryIsRecorded(k: Codec, b: Books, budget: string, cid: string, x: Input)
    requires Commit(k, b, CreateEntry(budget, cid, x)).Ok?
    ensures var b' := Commit(k, b, CreateEntry(budget, cid, x)).value;
            && b' == b.(entries := b'.entries) && |b'.entries| == |b.entries| + 1 && b.entries <= b'.entries
            && var e := b'.entries[|b.entries|];
               e.id == x.id && e.cotisation == cid && e.kind == KindOf(x) && e.date == x.date
               && e.reverses == if x.reverses == "" then None else Some(x.reverses)
  {
    hide EffectOf, Commit;
    CommitAppends(k, b, budget, cid, x);
    EffectParts(k, b, budget, cid, x);
    CotisationFound(b.cotisations, budget, cid);
    ProposedParts(k, b, FindCotisation(b.cotisations, budget, cid).value, x);
  }

  // ---- Publication ----

  /** A budget is published once: its rows are added, and it is refused ever after. */
  lemma PublishesOnce(k: Codec, b: Books, budget: string, rows: seq<Cotisation>, again: seq<Cotisation>)
    ensures Commit(k, b, Publish(budget, rows)).Ok? <==> (budget in b.budgets ==> b.budgets[budget]) && FreshRows(b, budget, rows)
    ensures Commit(k, b, Publish(budget, rows)).Ok? ==>
              var b' := Commit(k, b, Publish(budget, rows)).value;
              && b' == b.(budgets := b.budgets[budget := false], cotisations := b.cotisations + rows)
              && Commit(k, b', Publish(budget, again)).Err?
  {
    hide FreshRows;
  }

  // ---- Payments ----

  /** A payment may be lowered exactly by what leaves the net paid amount non-negative. */
  lemma UpdatesIff(k: Codec, b: Books, budget: string, cid: string, pid: string, amount: Amount, at: string)
    ensures var i := FindPayment(b.payments, cid, pid);
            var c := FindCotisation(b.cotisations, budget, cid);
            Commit(k, b, UpdatePayment(budget, cid, pid, amount, at)).Ok? <==>
              && ValidInput(amount) && budget in b.budgets && c.Some? && i.Some?
              && Paid(b, c.value) - Paying(b, cid, pid) + amount >= 0.0
  {
    CotisationFound(b.cotisations, budget, cid);
    FoundPayment(b.payments, cid, pid);
  }

  /** The amount of the live payment of that ID. */
  function Paying(b: Books, cid: string, pid: string): Amount {
    FoundPayment(b.payments, cid, pid);
    var i := FindPayment(b.payments, cid, pid);
    if i.Some? then b.payments[i.value].amount else 0.0
  }

  lemma DeletesIff(k: Codec, b: Books, budget: string, cid: string, pid: string)
    ensures var i := FindPayment(b.payments, cid, pid);
            var c := FindCotisation(b.cotisations, budget, cid);
            Commit(k, b, DeletePayment(budget, cid, pid)).Ok? <==>
              && budget in b.budgets && c.Some? && i.Some? && Paid(b, c.value) - Paying(b, cid, pid) >= 0.0
  {
    CotisationFound(b.cotisations, budget, cid);
    FoundPayment(b.payments, cid, pid);
  }

  /** A payment changes what is paid by its amount, and nothing that is called. */
  lemma PaymentDoes(k: Codec, b: Books, s: Step, c: Cotisation)
    requires s.CreatePayment? || s.UpdatePayment? || s.DeletePayment?
    requires Commit(k, b, s).Ok? && c == FindCotisation(b.cotisations, s.budget, s.cid).value
    ensures var b' := Commit(k, b, s).value;
            && b'.entries == b.entries && b'.cotisations == b.cotisations && b'.budgets == b.budgets
            && Called(b', c) == Called(b, c)
            && Paid(b', c) == Paid(b, c) + match s
                                           case CreatePayment(_, _, p) => p.amount
                                           case UpdatePayment(_, cid, pid, amount, _) => amount - Paying(b, cid, pid)
                                           case DeletePayment(_, cid, pid) => -Paying(b, cid, pid)
                                           case _ => 0.0
  {
    CotisationFound(b.cotisations, s.budget, s.cid);
    match s
    case CreatePayment(_, cid, p) => GrossPaidAppend(b.payments, p.(cotisation := cid, deleted := false), cid);
    case UpdatePayment(_, cid, pid, amount, at) =>
      FoundPayment(b.payments, cid, pid);
      var i := FindPayment(b.payments, cid, pid).value;
      GrossPaidUpdate(b.payments, i, b.payments[i].(amount := amount, updatedAt := at), cid);
    case DeletePayment(_, cid, pid) =>
      FoundPayment(b.payments, cid, pid);
      var i := FindPayment(b.payments, cid, pid).value;
      GrossPaidUpdate(b.payments, i, b.payments[i].(deleted := true), cid);
  }
}

/** What every run of the ledger keeps, and what a preview promises about the record. */
module LedgerSafety {
  import opened Wrappers
  import opened Money
  import opened Ledger

  // ---- The structure of the entries ----

  predicate ReversesAt(entries: seq<Entry>, i: int, j: int)
    requires 0 <= i < |entries| && 0 <= j < |entries|
  {
    && entries[i].reverses == Some(entries[j].id)
    && entries[j].reverses.None?
    && entries[i].cotisation == entries[j].cotisation && entries[i].kind == entries[j].kind
    && entries[i].amount == -entries[j].amount
  }

  /** Every reversal undoes one earlier original of the same cotisation and kind, which
      is not a reversal; no entry is reversed twice. */
  predicate WellReversed(entries: seq<Entry>) {
    && (forall i, j :: 0 <= i < j < |entries| ==> entries[i].id != entries[j].id)
    && (forall i :: 0 <= i < |entries| && entries[i].reverses.Some? ==> exists j :: 0 <= j < i && ReversesAt(entries, i, j))
    && (forall i, j :: 0 <= i < j < |entries| && entries[i].reverses.Some? ==> entries[i].reverses != entries[j].reverses)
    && (forall i :: 0 <= i < |entries| && entries[i].reverses.None? && entries[i].kind.Refund? ==> entries[i].amount > 0.0)
  }

  /** The safety of the ledger. */
  predicate Good(b: Books) {
    && WellReversed(b.entries)
    && (forall i, j :: 0 <= i < j < |b.cotisations| ==> b.cotisations[i].id != b.cotisations[j].id)
    && (forall i :: 0 <= i < |b.cotisations| ==> Called(b, b.cotisations[i]) >= 0.0 && Paid(b, b.cotisations[i]) >= 0.0)
  }

  // ---- Sums ----

  function Live(p: Payment, cid: string): Amount {
    if p.cotisation == cid && !p.deleted then p.amount else 0.0
  }

  lemma {:induction false} GrossPaidUpdate(s: seq<Payment>, i: nat, p: Payment, cid: string)
    requires i < |s|
    ensures GrossPaid(s[i := p], cid) == GrossPaid(s, cid) - Live(s[i], cid) + Live(p, cid)
    decreases |s|
  {
    var n := |s| - 1;
    if i == n {
      assert s[i := p][..n] == s[..n];
    } else {
      assert s[i := p][..n] == s[..n][i := p];
      GrossPaidUpdate(s[..n], i, p, cid);
    }
  }

  lemma GrossPaidAppend(s: seq<Payment>, p: Payment, cid: string)
    ensures GrossPaid(s + [p], cid) == GrossPaid(s, cid) + Live(p, cid)
  {
    assert (s + [p])[..|s|] == s;
  }

  lemma SumEntriesAppend(s: seq<Entry>, e: Entry, cid: string, kind: Kind)
    ensures SumEntries(s + [e], cid, kind)
         == SumEntries(s, cid, kind) + if e.cotisation == cid && e.kind == kind then e.amount else 0.0
  {
    assert (s + [e])[..|s|] == s;
  }

  lemma {:induction false} NothingPaid(s: seq<Payment>, cid: string)
    requires forall j :: 0 <= j < |s| ==> s[j].cotisation != cid
    ensures GrossPaid(s, cid) == 0.0
    decreases |s|
  {
    if s != [] {
      NothingPaid(s[..|s| - 1], cid);
    }
  }

  lemma {:induction false} NothingEntered(s: seq<Entry>, cid: string, kind: Kind)
    requires forall j :: 0 <= j < |s| ==> s[j].cotisation != cid
    ensures SumEntries(s, cid, kind) == 0.0
    decreases |s|
  {
    if s != [] {
      NothingEntered(s[..|s| - 1], cid, kind);
    }
  }

  // ---- Total refunded is the sum of what was not reversed ----

  function Sum(w: seq<Amount>): Amount {
    if w == [] then 0.0 else Sum(w[..|w| - 1]) + w[|w| - 1]
  }

  lemma {:induction false} SumUpdate(w: seq<Amount>, i: nat, a: Amount)
    requires i < |w|
    ensures Sum(w[i := a]) == Sum(w) - w[i] + a
    decreases |w|
  {
    var n := |w| - 1;
    if i == n {
      assert w[i := a][..n] == w[..n];
    } else {
      assert w[i := a][..n] == w[..n][i := a];
      SumUpdate(w[..n], i, a);
    }
  }

  lemma {:induction false} SumNonNegative(w: seq<Amount>)
    requires forall i :: 0 <= i < |w| ==> w[i] >= 0.0
    ensures Sum(w) >= 0.0
    decreases |w|
  {
    if w != [] {
      SumNonNegative(w[..|w| - 1]);
    }
  }

  /** What an entry adds to a total if only unreversed originals count. */
  function OpenAmount(entries: seq<Entry>, i: nat, cid: string, kind: Kind): Amount
    requires i < |entries|
  {
    var e := entries[i];
    if e.cotisation == cid && e.kind == kind && e.reverses.None? && !Reversed(entries, e.id) then e.amount else 0.0
  }

  function OpenAmounts(entries: seq<Entry>, cid: string, kind: Kind): seq<Amount> {
    seq(|entries|, i requires 0 <= i < |entries| => OpenAmount(entries, i, cid, kind))
  }

  lemma WellReversedPrefix(entries: seq<Entry>)
    requires WellReversed(entries) && entries != []
    ensures WellReversed(entries[..|entries| - 1])
  {
    var front := entries[..|entries| - 1];
    forall i | 0 <= i < |front| && front[i].reverses.Some?
      ensures exists j :: 0 <= j < i && ReversesAt(front, i, j)
    {
      var j :| 0 <= j < i && ReversesAt(entries, i, j);
      assert ReversesAt(front, i, j);
    }
  }

  /** The last entry leaves every other entry open or reversed as it was, except the one
      that it reverses. */
  lemma LastReverses(entries: seq<Entry>, i: nat)
    requires i < |entries| - 1
    ensures var front, e := entries[..|entries| - 1], entries[|entries| - 1];
            Reversed(entries, entries[i].id) <==> Reversed(front, entries[i].id) || e.reverses == Some(entries[i].id)
  {
    var n := |entries| - 1;
    var front := entries[..n];
    if k :| 0 <= k < |entries| && entries[k].reverses == Some(entries[i].id) {
      assert k < n ==> front[k].reverses == Some(entries[i].id);
    }
    if k :| 0 <= k < |front| && front[k].reverses == Some(entries[i].id) {
      assert entries[k].reverses == Some(entries[i].id);
    }
    assert entries[n].reverses == Some(entries[i].id) ==> Reversed(entries, entries[i].id);
  }

  lemma LastIsOpen(entries: seq<Entry>)
    requires WellReversed(entries) && entries != []
    ensures !Reversed(entries, entries[|entries| - 1].id)
  {
    forall k | 0 <= k < |entries| && entries[k].reverses.Some?
      ensures entries[k].reverses != Some(entries[|entries| - 1].id)
    {
      var j :| 0 <= j < k && ReversesAt(entries, k, j);
    }
  }

  lemma LastOpenAmount(entries: seq<Entry>, cid: string, kind: Kind)
    requires WellReversed(entries) && entries != []
    ensures var e := entries[|entries| - 1];
            OpenAmounts(entries, cid, kind)[|entries| - 1]
            == if e.cotisation == cid && e.kind == kind && e.reverses.None? then e.amount else 0.0
  {
    LastIsOpen(entries);
  }

  lemma {:induction false} SumIsOpenSum(entries: seq<Entry>, cid: string, kind: Kind)
    requires WellReversed(entries)
    ensures SumEntries(entries, cid, kind) == Sum(OpenAmounts(entries, cid, kind))
    decreases |entries|
  {
    hide WellReversed, OpenAmounts;
    if entries != [] {
      var n := |entries| - 1;
      WellReversedPrefix(entries);
      SumIsOpenSum(entries[..n], cid, kind);
      if entries[n].reverses.None? {
        SumWithOriginal(entries, cid, kind);
      } else {
        SumWithReversal(entries, cid, kind);
      }
    } else {
      NoOpenAmounts(cid, kind);
    }
  }

  lemma NoOpenAmounts(cid: string, kind: Kind)
    ensures OpenAmounts([], cid, kind) == []
  {}

  lemma SumOfLast(w: seq<Amount>, front: seq<Amount>)
    requires w != [] && w[..|w| - 1] == front
    ensures Sum(w) == Sum(front) + w[|w| - 1]
  {}

  lemma SumWithOriginal(entries: seq<Entry>, cid: string, kind: Kind)
    requires WellReversed(entries) && entries != [] && entries[|entries| - 1].reverses.None?
    ensures Sum(OpenAmounts(entries, cid, kind))
         == Sum(OpenAmounts(entries[..|entries| - 1], cid, kind)) + Entered(entries[|entries| - 1], cid, kind)
  {
    LastOpenAmount(entries, cid, kind);
    OpenAfterOriginal(entries, cid, kind);
    hide WellReversed, OpenAmount, Reversed, Sum;
    SumOfLast(OpenAmounts(entries, cid, kind), OpenAmounts(entries[..|entries| - 1], cid, kind));
  }

  lemma SumWithReversal(entries: seq<Entry>, cid: string, kind: Kind)
    requires WellReversed(entries) && entries != [] && entries[|entries| - 1].reverses.Some?
    ensures Sum(OpenAmounts(entries, cid, kind))
         == Sum(OpenAmounts(entries[..|entries| - 1], cid, kind)) + Entered(entries[|entries| - 1], cid, kind)
  {
    hide OpenAmount, Reversed, Sum;
    var n := |entries| - 1;
    var w0 := OpenAmounts(entries[..n], cid, kind);
    var j :| 0 <= j < n && ReversesAt(entries, n, j);
    LastOpenAmount(entries, cid, kind);
    OpenAfterReversal(entries, j, cid, kind);
    SumUpdate(w0, j, 0.0);
    SumOfLast(OpenAmounts(entries, cid, kind), w0[j := 0.0]);
  }

  /** What an entry adds to a total of the queries. */
  function Entered(e: Entry, cid: string, kind: Kind): Amount {
    if e.cotisation == cid && e.kind == kind then e.amount else 0.0
  }

  /** An original leaves the entries before it as they were. */
  lemma OpenAfterOriginal(entries: seq<Entry>, cid: string, kind: Kind)
    requires WellReversed(entries) && entries != [] && entries[|entries| - 1].reverses.None?
    ensures var n := |entries| - 1;
            OpenAmounts(entries, cid, kind)[..n] == OpenAmounts(entries[..n], cid, kind)
  {
    var n := |entries| - 1;
    forall i | 0 <= i < n
      ensures OpenAmount(entries, i, cid, kind) == OpenAmount(entries[..n], i, cid, kind)
    {
      LastReverses(entries, i);
    }
  }

  /** A reversal closes one entry, which was open until then. */
  lemma OpenAfterReversal(entries: seq<Entry>, j: nat, cid: string, kind: Kind)
    requires WellReversed(entries) && j < |entries| - 1 && ReversesAt(entries, |entries| - 1, j)
    ensures var n := |entries| - 1;
            var w0 := OpenAmounts(entries[..n], cid, kind);
            OpenAmounts(entries, cid, kind)[..n] == w0[j := 0.0]
            && w0[j] == if entries[j].cotisation == cid && entries[j].kind == kind then entries[j].amount else 0.0
  {
    var n := |entries| - 1;
    forall i | 0 <= i < n
      ensures OpenAmount(entries, i, cid, kind) == if i == j then 0.0 else OpenAmount(entries[..n], i, cid, kind)
    {
      LastReverses(entries, i);
    }
    NotYetReversed(entries, j);
  }

  lemma NotYetReversed(entries: seq<Entry>, j: nat)
    requires WellReversed(entries) && j < |entries| - 1
    requires entries[|entries| - 1].reverses == Some(entries[j].id)
    ensures !Reversed(entries[..|entries| - 1], entries[j].id)
  {
    var front := entries[..|entries| - 1];
    assert forall k :: 0 <= k < |front| ==> front[k] == entries[k];
  }

  /** Total refunded is the sum of the unreversed original refunds, and is never negative. */
  lemma RefundedIsOpenRefunds(b: Books, cid: string)
    requires Good(b)
    ensures SumEntries(b.entries, cid, Refund) == Sum(OpenAmounts(b.entries, cid, Refund))
    ensures SumEntries(b.entries, cid, Refund) >= 0.0
  {
    SumIsOpenSum(b.entries, cid, Refund);
    SumNonNegative(OpenAmounts(b.entries, cid, Refund));
  }

  // ---- Rows found by the queries ----

  lemma {:induction false} CotisationFound(rows: seq<Cotisation>, budget: string, cid: string)
    ensures var c := FindCotisation(rows, budget, cid);
            c.Some? ==> c.value in rows && c.value.id == cid && c.value.budget == budget
  {
    if rows != [] {
      CotisationFound(rows[1..], budget, cid);
    }
  }

  lemma {:induction false} EntryOf(entries: seq<Entry>, cid: string, e: Entry)
    ensures e in EntriesOf(entries, cid) <==> e in entries && e.cotisation == cid
  {
    if entries != [] {
      EntryOf(entries[1..], cid, e);
      assert e in entries <==> e == entries[0] || e in entries[1..];
    }
  }

  lemma {:induction false} OriginalFound(entries: seq<Entry>, id: string)
    ensures var o := Original(entries, id);
            o.Some? ==> o.value in entries && o.value.id == id
    decreases |entries|
  {
    if entries != [] && entries[|entries| - 1].id != id {
      OriginalFound(entries[..|entries| - 1], id);
    }
  }

  /** An accepted reversal points at an original of the cotisation that no entry reverses. */
  lemma AcceptedReversal(k: Codec, b: Books, row: CotisationResult, x: Input) returns (j: nat)
    requires WellReversed(b.entries) && x.reverses != "" && Proposed(k, b, row, x).Ok?
    ensures j < |b.entries| && !Reversed(b.entries, x.reverses)
    ensures var e := Proposed(k, b, row, x).value;
            var o := b.entries[j];
            && o.id == x.reverses && o.reverses.None? && e.reverses == Some(o.id)
            && e.cotisation == o.cotisation == row.id && e.kind == o.kind && e.amount == -o.amount
  {
    var mine := EntriesOf(b.entries, row.id);
    var o := Original(mine, x.reverses).value;
    OriginalFound(mine, x.reverses);
    EntryOf(b.entries, row.id, o);
    j :| 0 <= j < |b.entries| && b.entries[j] == o;
    forall i | 0 <= i < |b.entries| && b.entries[i].reverses.Some?
      ensures b.entries[i].reverses != Some(x.reverses)
    {
      var m :| 0 <= m < i && ReversesAt(b.entries, i, m);
      assert b.entries[m].id == b.entries[j].id ==> m == j;
      EntryOf(b.entries, row.id, b.entries[i]);
      if b.entries[i].cotisation == row.id {
        var n :| 0 <= n < |mine| && mine[n] == b.entries[i];
      }
    }
  }

  /** Earlier entries keep what they reverse when one more is appended. */
  lemma StillReverses(entries: seq<Entry>, e: Entry, i: nat)
    requires WellReversed(entries) && i < |entries| && entries[i].reverses.Some?
    ensures exists j :: 0 <= j < i && ReversesAt(entries + [e], i, j)
  {
    var j :| 0 <= j < i && ReversesAt(entries, i, j);
    assert ReversesAt(entries + [e], i, j);
  }

  /** A new entry is well placed: its ID is new, a reversal has an open target, and an
      original refund is positive. */
  predicate Fits(entries: seq<Entry>, e: Entry) {
    && !KnownId(entries, e.id)
    && (e.reverses.Some? ==> !Reversed(entries, e.reverses.value)
                             && exists j :: 0 <= j < |entries| && ReversesAt(entries + [e], |entries|, j))
    && (e.reverses.None? && e.kind.Refund? ==> e.amount > 0.0)
  }

  lemma FittingKeepsStructure(entries: seq<Entry>, e: Entry)
    requires WellReversed(entries) && Fits(entries, e)
    ensures WellReversed(entries + [e])
  {
    var all, n := entries + [e], |entries|;
    forall i | 0 <= i < |all| && all[i].reverses.Some?
      ensures exists j :: 0 <= j < i && ReversesAt(all, i, j)
    {
      if i < n {
        StillReverses(entries, e, i);
      }
    }
  }

  lemma ProposedFits(k: Codec, b: Books, row: CotisationResult, x: Input)
    requires WellReversed(b.entries) && Proposed(k, b, row, x).Ok? && !KnownId(b.entries, x.id)
    ensures Fits(b.entries, Proposed(k, b, row, x).value)
  {
    if x.reverses != "" {
      var e := Proposed(k, b, row, x).value;
      var j := AcceptedReversal(k, b, row, x);
      assert ReversesAt(b.entries + [e], |b.entries|, j);
    }
  }

  lemma AppendKeepsStructure(k: Codec, b: Books, row: CotisationResult, x: Input)
    requires WellReversed(b.entries) && Proposed(k, b, row, x).Ok? && !KnownId(b.entries, x.id)
    ensures WellReversed(b.entries + [Proposed(k, b, row, x).value])
  {
    hide WellReversed, Fits, Proposed;
    ProposedFits(k, b, row, x);
    FittingKeepsStructure(b.entries, Proposed(k, b, row, x).value);
  }

  // ---- Every transaction keeps the ledger safe ----

  lemma PaymentChange(b: Books, b': Books, i: nat, p: Payment, cid: string)
    requires Good(b) && i < |b.payments| && b'.payments == b.payments[i := p]
    requires b'.cotisations == b.cotisations && b'.entries == b.entries
    requires p.cotisation == b.payments[i].cotisation == cid
    requires MayReduce(b, cid, Live(b.payments[i], cid) - Live(p, cid))
    ensures Good(b')
  {
    forall m | 0 <= m < |b'.cotisations|
      ensures Called(b', b'.cotisations[m]) >= 0.0 && Paid(b', b'.cotisations[m]) >= 0.0
    {
      var c := b.cotisations[m];
      assert Called(b, c) >= 0.0 && Paid(b, c) >= 0.0;
      GrossPaidUpdate(b.payments, i, p, c.id);
    }
  }

  lemma NewPayment(b: Books, b': Books, p: Payment)
    requires Good(b) && b'.payments == b.payments + [p] && p.amount >= 0.0
    requires b'.cotisations == b.cotisations && b'.entries == b.entries
    ensures Good(b')
  {
    forall m | 0 <= m < |b'.cotisations|
      ensures Called(b', b'.cotisations[m]) >= 0.0 && Paid(b', b'.cotisations[m]) >= 0.0
    {
      var c := b.cotisations[m];
      assert Called(b, c) >= 0.0 && Paid(b, c) >= 0.0;
      GrossPaidAppend(b.payments, p, c.id);
    }
  }

  lemma NewRows(b: Books, b': Books, budget: string, rows: seq<Cotisation>)
    requires Good(b) && FreshRows(b, budget, rows)
    requires b'.cotisations == b.cotisations + rows && b'.payments == b.payments && b'.entries == b.entries
    ensures Good(b')
  {
    forall m | 0 <= m < |b'.cotisations|
      ensures Called(b', b'.cotisations[m]) >= 0.0 && Paid(b', b'.cotisations[m]) >= 0.0
    {
      var c := b'.cotisations[m];
      if m < |b.cotisations| {
        assert Called(b, b.cotisations[m]) >= 0.0 && Paid(b, b.cotisations[m]) >= 0.0;
      } else {
        assert c == rows[m - |b.cotisations|];
        NothingPaid(b.payments, c.id);
        NothingEntered(b.entries, c.id, Refund);
        NothingEntered(b.entries, c.id, Adjustment);
      }
    }
  }

  /** After an entry is appended, the row of its cotisation is what was previewed. */
  lemma RowAfterEntry(k: Codec, b: Books, budget: string, cid: string, x: Input)
    requires EffectOf(k, b, budget, cid, x).Ok?
    ensures var e := EffectOf(k, b, budget, cid, x).value;
            var c := FindCotisation(b.cotisations, budget, cid);
            var b' := b.(entries := b.entries + [e.entry]);
            && c.Some? && e.entry.cotisation == c.value.id == cid
            && Called(b', c.value) == e.preview.calledAfter
            && Paid(b', c.value) == e.preview.paidAfter
            && RowOf(b', c.value).remaining == e.preview.remainingAfter
  {
    var e := EffectOf(k, b, budget, cid, x).value.entry;
    CotisationFound(b.cotisations, budget, cid);
    SumEntriesAppend(b.entries, e, cid, Refund);
    SumEntriesAppend(b.entries, e, cid, Adjustment);
  }

  lemma NewEntry(k: Codec, b: Books, budget: string, cid: string, x: Input)
    requires Good(b) && EffectOf(k, b, budget, cid, x).Ok? && !KnownId(b.entries, x.id)
    ensures Good(b.(entries := b.entries + [EffectOf(k, b, budget, cid, x).value.entry]))
  {
    var e := EffectOf(k, b, budget, cid, x).value.entry;
    var b' := b.(entries := b.entries + [e]);
    var found := FindCotisation(b.cotisations, budget, cid).value;
    CotisationFound(b.cotisations, budget, cid);
    RowAfterEntry(k, b, budget, cid, x);
    AppendKeepsStructure(k, b, RowOf(b, found), x);
    forall m | 0 <= m < |b'.cotisations|
      ensures Called(b', b'.cotisations[m]) >= 0.0 && Paid(b', b'.cotisations[m]) >= 0.0
    {
      var c := b.cotisations[m];
      assert Called(b, c) >= 0.0 && Paid(b, c) >= 0.0;
      if c.id == cid {
        var f :| 0 <= f < |b.cotisations| && b.cotisations[f] == found;
        assert f == m;
      } else {
        SumEntriesAppend(b.entries, e, c.id, Refund);
        SumEntriesAppend(b.entries, e, c.id, Adjustment);
      }
    }
  }

  lemma CommitKeepsGood(k: Codec, b: Books, s: Step)
    requires Good(b) && Commit(k, b, s).Ok?
    ensures Good(Commit(k, b, s).value)
  {
    var b' := Commit(k, b, s).value;
    match s
    case Publish(budget, rows) => NewRows(b, b', budget, rows);
    case CreatePayment(_, cid, p) => NewPayment(b, b', p.(cotisation := cid, deleted := false));
    case UpdatePayment(_, cid, pid, _, _) =>
      FoundPayment(b.payments, cid, pid);
      var i := FindPayment(b.payments, cid, pid).value;
      PaymentChange(b, b', i, b'.payments[i], cid);
    case DeletePayment(_, cid, pid) =>
      FoundPayment(b.payments, cid, pid);
      var i := FindPayment(b.payments, cid, pid).value;
      PaymentChange(b, b', i, b'.payments[i], cid);
    case CreateEntry(budget, cid, x) => NewEntry(k, b, budget, cid, x);
  }

  // ---- Runs ----

  predicate Draft(b: Books) {
    b.cotisations == [] && b.payments == [] && b.entries == [] && forall id :: id in b.budgets ==> b.budgets[id]
  }

  /** A transaction commits or leaves no trace. */
  ghost predicate Next(k: Codec, b: Books, b': Books) {
    b' == b || exists s :: Commit(k, b, s) == Ok(b')
  }

  ghost predicate IsRun(k: Codec, run: seq<Books>) {
    run != [] && Draft(run[0]) && forall i :: 0 <= i < |run| - 1 ==> Next(k, run[i], run[i + 1])
  }

  lemma {:induction false} RunsAreGood(k: Codec, run: seq<Books>, i: nat)
    requires IsRun(k, run) && i < |run|
    ensures Good(run[i])
  {
    if i > 0 {
      RunsAreGood(k, run, i - 1);
      assert Next(k, run[i - 1], run[i]);
      if run[i] != run[i - 1] {
        var s :| Commit(k, run[i - 1], s) == Ok(run[i]);
        CommitKeepsGood(k, run[i - 1], s);
      }
    }
  }

  /** Ledger safety over all interleavings of transactions: called and net paid amounts
      never become negative, and what was refunded is the sum of the refunds that were
      not reversed. The structure of reversals is part of Good. */
  lemma LedgerIsSafe(k: Codec, run: seq<Books>, i: nat, c: Cotisation)
    requires IsRun(k, run) && i < |run| && c in run[i].cotisations
    ensures Called(run[i], c) >= 0.0 && Paid(run[i], c) >= 0.0
    ensures RowOf(run[i], c).refunded == Sum(OpenAmounts(run[i].entries, c.id, Refund)) >= 0.0
    ensures WellReversed(run[i].entries)
  {
    RunsAreGood(k, run, i);
    RefundedIsOpenRefunds(run[i], c.id);
    var m :| 0 <= m < |run[i].cotisations| && run[i].cotisations[m] == c;
  }

  // ---- Whole cents and one cotisation per unit ----

  /** Every stored amount is in whole cents. */
  predicate InCents(b: Books) {
    && (forall i :: 0 <= i < |b.cotisations| ==> WholeCents(b.cotisations[i].amount))
    && (forall i :: 0 <= i < |b.payments| ==> WholeCents(b.payments[i].amount))
    && (forall i :: 0 <= i < |b.entries| ==> WholeCents(b.entries[i].amount))
  }

  predicate Exact(b: Books) {
    InCents(b) && OnePerUnit(b.cotisations)
  }

  lemma {:induction false} PaidInCents(s: seq<Payment>, cid: string)
    requires forall i :: 0 <= i < |s| ==> WholeCents(s[i].amount)
    ensures WholeCents(GrossPaid(s, cid))
    decreases |s|
  {
    hide WholeCents;
    if s == [] {
      IntegerIsWhole(0.0, 0);
    } else {
      var n := |s| - 1;
      PaidInCents(s[..n], cid);
      CentsOfSum(GrossPaid(s[..n], cid), s[n].amount);
    }
  }

  lemma {:induction false} EnteredInCents(s: seq<Entry>, cid: string, kind: Kind)
    requires forall i :: 0 <= i < |s| ==> WholeCents(s[i].amount)
    ensures WholeCents(SumEntries(s, cid, kind))
    decreases |s|
  {
    hide WholeCents;
    if s == [] {
      IntegerIsWhole(0.0, 0);
    } else {
      var n := |s| - 1;
      EnteredInCents(s[..n], cid, kind);
      CentsOfSum(SumEntries(s[..n], cid, kind), s[n].amount);
    }
  }

  /** So are the amounts that a stamp shows of a row. */
  lemma RowInCents(b: Books, c: Cotisation)
    requires InCents(b) && c in b.cotisations
    ensures var row := RowOf(b, c);
            && WholeCents(row.initialAmount) && WholeCents(row.adjustment)
            && WholeCents(row.grossPaid) && WholeCents(row.refunded)
  {
    hide WholeCents;
    PaidInCents(b.payments, c.id);
    EnteredInCents(b.entries, c.id, Adjustment);
    EnteredInCents(b.entries, c.id, Refund);
  }

  lemma ProposedInCents(k: Codec, b: Books, row: CotisationResult, x: Input)
    requires InCents(b) && Proposed(k, b, row, x).Ok?
    ensures WholeCents(Proposed(k, b, row, x).value.amount)
  {
    hide WholeCents, ValidInput;
    if x.reverses != "" {
      var mine := EntriesOf(b.entries, row.id);
      var o := Original(mine, x.reverses).value;
      OriginalFound(mine, x.reverses);
      EntryOf(b.entries, row.id, o);
      CentsOfNegation(o.amount);
    } else {
      ValidIsWholeCents(x.amount);
    }
  }

  lemma EffectInCents(k: Codec, b: Books, budget: string, cid: string, x: Input)
    requires InCents(b) && EffectOf(k, b, budget, cid, x).Ok?
    ensures WholeCents(EffectOf(k, b, budget, cid, x).value.entry.amount)
  {
    hide WholeCents, Proposed, Stamp, InCents;
    ProposedInCents(k, b, RowOf(b, FindCotisation(b.cotisations, budget, cid).value), x);
  }

  /** Every transaction keeps both: what is written was validated, or undoes what was. */
  lemma CommitKeepsExact(k: Codec, b: Books, s: Step)
    requires Exact(b) && Commit(k, b, s).Ok?
    ensures Exact(Commit(k, b, s).value)
  {
    hide WholeCents, ValidInput, EffectOf, MayReduce, FindCotisation, FindPayment;
    match s
    case Publish(budget, rows) =>
    case CreatePayment(_, cid, p) => ValidIsWholeCents(p.amount);
    case UpdatePayment(_, cid, pid, amount, _) =>
      FoundPayment(b.payments, cid, pid);
      ValidIsWholeCents(amount);
    case DeletePayment(_, cid, pid) => FoundPayment(b.payments, cid, pid);
    case CreateEntry(budget, cid, x) => EffectInCents(k, b, budget, cid, x);
  }

  lemma {:induction false} RunsAreExact(k: Codec, run: seq<Books>, i: nat)
    requires IsRun(k, run) && i < |run|
    ensures Exact(run[i])
  {
    hide Commit, InCents, OnePerUnit;
    if i == 0 {
      DraftIsExact(run[0]);
    } else {
      RunsAreExact(k, run, i - 1);
      assert Next(k, run[i - 1], run[i]);
      if run[i] != run[i - 1] {
        var s :| Commit(k, run[i - 1], s) == Ok(run[i]);
        CommitKeepsExact(k, run[i - 1], s);
      }
    }
  }

  lemma DraftIsExact(b: Books)
    requires Draft(b)
    ensures Exact(b)
  {}

  // ---- What was previewed is what is recorded ----

  lemma {:induction false} JoinedIsInjective(f: seq<string>, g: seq<string>, s: string, t: string)
    requires |f| == |g| && Joined(f, s) == Joined(g, t)
    requires forall i :: 0 <= i < |f| ==> SlashFree(f[i]) && SlashFree(g[i])
    ensures f == g && s == t
    decreases |f|
  {
    if f != [] {
      FirstField(f[0], g[0], Joined(f[1..], s), Joined(g[1..], t));
      JoinedIsInjective(f[1..], g[1..], s, t);
      assert f == [f[0]] + f[1..] && g == [g[0]] + g[1..];
    }
  }

  function UntilSlash(s: string): string {
    if s == "" || s[0] == '/' then "" else [s[0]] + UntilSlash(s[1..])
  }

  lemma {:induction false} UntilSlashOf(a: string, rest: string)
    requires SlashFree(a)
    ensures UntilSlash(a + "/" + rest) == a
    decreases |a|
  {
    if a == "" {
      assert (a + "/" + rest)[0] == '/';
    } else {
      assert (a + "/" + rest)[1..] == a[1..] + "/" + rest;
      UntilSlashOf(a[1..], rest);
      assert a == [a[0]] + a[1..];
    }
  }

  /** A slash-free field ends at the first slash. */
  lemma FirstField(a: string, b: string, s: string, t: string)
    requires SlashFree(a) && SlashFree(b) && a + "/" + s == b + "/" + t
    ensures a == b && s == t
  {
    UntilSlashOf(a, s);
    UntilSlashOf(b, t);
    assert s == (a + "/" + s)[|a| + 1..] && t == (b + "/" + t)[|b| + 1..];
  }

  lemma FieldsAreSlashFree(k: Codec, b: Books, budget: string, cid: string, x: Input)
    requires Faithful(k) && InCents(b) && EffectOf(k, b, budget, cid, x).Ok?
    ensures var row := RowOf(b, FindCotisation(b.cotisations, budget, cid).value);
            var f := StampFields(k, row, EffectOf(k, b, budget, cid, x).value.entry);
            |f| == 8 && forall i :: 0 <= i < |f| ==> SlashFree(f[i])
  {
    hide GrossPaid, SumEntries, Stamp, ValidInput, PaymentState, EntriesOf, Original, Reversed, InCents, WholeCents;
    CotisationFound(b.cotisations, budget, cid);
    var c := FindCotisation(b.cotisations, budget, cid).value;
    var row := RowOf(b, c);
    assert row.id == cid;
    RowInCents(b, c);
    EffectInCents(k, b, budget, cid, x);
    assert SlashFree("refund") && SlashFree("adjustment");
  }

  /** Equal versions announce equal amounts, although reasons and references may contain
      the separator, and whatever else changed between the two previews. */
  lemma SameVersionSamePreview(k: Codec, b: Books, b': Books, budget: string, budget': string,
                               cid: string, cid': string, x: Input, x': Input)
    requires Faithful(k) && InCents(b) && InCents(b')
    requires EffectOf(k, b, budget, cid, x).Ok? && EffectOf(k, b', budget', cid', x').Ok?
    requires EffectOf(k, b, budget, cid, x).value.preview.version == EffectOf(k, b', budget', cid', x').value.preview.version
    ensures cid == cid'
    ensures EffectOf(k, b, budget, cid, x).value.preview == EffectOf(k, b', budget', cid', x').value.preview
  {
    hide GrossPaid, SumEntries, StampRest, ValidInput, PaymentState, Proposed, InCents, WholeCents, Faithful;
    var e, e' := EffectOf(k, b, budget, cid, x).value.entry, EffectOf(k, b', budget', cid', x').value.entry;
    var row := RowOf(b, FindCotisation(b.cotisations, budget, cid).value);
    var row' := RowOf(b', FindCotisation(b'.cotisations, budget', cid').value);
    FieldsAreSlashFree(k, b, budget, cid, x);
    FieldsAreSlashFree(k, b', budget', cid', x');
    CotisationFound(b.cotisations, budget, cid);
    CotisationFound(b'.cotisations, budget', cid');
    SameHash(k, Stamp(k, b, row, e, x.reverses), Stamp(k, b', row', e', x'.reverses));
    var f, f' := StampFields(k, row, e), StampFields(k, row', e');
    JoinedIsInjective(f, f', StampRest(k, b, row.id, e, x.reverses), StampRest(k, b', row'.id, e', x'.reverses));
    assert f[0] == f'[0] && f[1] == f'[1] && f[2] == f'[2] && f[3] == f'[3] && f[4] == f'[4] && f[5] == f'[5] && f[6] == f'[6];
    assert KindName(e.kind)[0] == KindName(e'.kind)[0];
    AmountsInCents(k, b, budget, cid, x);
    AmountsInCents(k, b', budget', cid', x');
    SameShown(k, row.initialAmount, row'.initialAmount);
    SameShown(k, row.adjustment, row'.adjustment);
    SameShown(k, row.grossPaid, row'.grossPaid);
    SameShown(k, row.refunded, row'.refunded);
    SameShown(k, e.amount, e'.amount);
  }

  lemma SameHash(k: Codec, s: string, t: string)
    requires Faithful(k) && k.hash(s) == k.hash(t)
    ensures s == t
  {}

  lemma SameShown(k: Codec, a: Amount, b: Amount)
    requires Faithful(k) && WholeCents(a) && WholeCents(b) && k.show(a) == k.show(b)
    ensures a == b
  {}

  /** Every amount in the stamp of an accepted operation is in whole cents. */
  lemma AmountsInCents(k: Codec, b: Books, budget: string, cid: string, x: Input)
    requires InCents(b) && EffectOf(k, b, budget, cid, x).Ok?
    ensures var row := RowOf(b, FindCotisation(b.cotisations, budget, cid).value);
            && WholeCents(row.initialAmount) && WholeCents(row.adjustment) && WholeCents(row.grossPaid) && WholeCents(row.refunded)
            && WholeCents(EffectOf(k, b, budget, cid, x).value.entry.amount)
  {
    hide WholeCents, Proposed, Stamp, InCents, RowOf;
    CotisationFound(b.cotisations, budget, cid);
    RowInCents(b, FindCotisation(b.cotisations, budget, cid).value);
    EffectInCents(k, b, budget, cid, x);
  }

  /** A confirmed operation leaves exactly the amounts that its preview announced, however
      much time and however many other operations lie between the two. */
  lemma RecordedAsPreviewed(k: Codec, seen: Books, budget0: string, cid0: string, x0: Input,
                            b: Books, budget: string, cid: string, x: Input)
    requires Faithful(k) && InCents(seen) && InCents(b) && EffectOf(k, seen, budget0, cid0, x0).Ok?
    requires x.version == EffectOf(k, seen, budget0, cid0, x0).value.preview.version
    requires Commit(k, b, CreateEntry(budget, cid, x)).Ok?
    ensures var p := EffectOf(k, seen, budget0, cid0, x0).value.preview;
            var b' := Commit(k, b, CreateEntry(budget, cid, x)).value;
            var c := FindCotisation(b'.cotisations, budget, cid0);
            && cid == cid0 && c.Some?
            && Called(b, c.value) == p.calledBefore && Paid(b, c.value) == p.paidBefore
            && Called(b', c.value) == p.calledAfter && Paid(b', c.value) == p.paidAfter
            && RowOf(b', c.value).remaining == p.remainingAfter
  {
    hide GrossPaid, SumEntries, Stamp, ValidInput, Proposed, MayReduce, KnownId, FreshRows, InCents, Faithful;
    SameVersionSamePreview(k, seen, b, budget0, budget, cid0, cid, x0, x);
    RowAfterEntry(k, b, budget, cid, x);
  }

  /** In every run of the ledger: what was previewed in one state and confirmed in another
      is what is recorded. */
  lemma RunsRecordAsPreviewed(k: Codec, run: seq<Books>, i: nat, j: nat, budget0: string, cid0: string, x0: Input,
                              budget: string, cid: string, x: Input)
    requires Faithful(k) && IsRun(k, run) && i < |run| && j < |run|
    requires EffectOf(k, run[i], budget0, cid0, x0).Ok?
    requires x.version == EffectOf(k, run[i], budget0, cid0, x0).value.preview.version
    requires Commit(k, run[j], CreateEntry(budget, cid, x)).Ok?
    ensures var p := EffectOf(k, run[i], budget0, cid0, x0).value.preview;
            var b' := Commit(k, run[j], CreateEntry(budget, cid, x)).value;
            var c := FindCotisation(b'.cotisations, budget, cid0);
            && cid == cid0 && c.Some?
            && Called(run[j], c.value) == p.calledBefore && Paid(run[j], c.value) == p.paidBefore
            && Called(b', c.value) == p.calledAfter && Paid(b', c.value) == p.paidAfter
            && RowOf(b', c.value).remaining == p.remainingAfter
  {
    hide EffectOf, Commit, Called, Paid, RowOf, InCents, OnePerUnit, Faithful;
    RunsAreExact(k, run, i);
    RunsAreExact(k, run, j);
    RecordedAsPreviewed(k, run[i], budget0, cid0, x0, run[j], budget, cid, x);
  }
}

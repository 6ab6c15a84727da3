/** Over every interleaving of the budget handlers: a published budget stays published,
    and its cotisations always add up to its expenses. */
module PublicationSafety {
  import opened Money
  import opened Sequences
  import opened Allocation
  import opened AllocationProperties
  import opened Publication

  function IdOf(u: Unit): multiset<string> {
    multiset{u.id}
  }

  ghost predicate DistinctUnits(units: seq<Unit>) {
    forall id :: Collect(IdOf, units)[id] <= 1
  }

  predicate DistinctExpenses(rows: seq<Expense>) {
    forall i, j :: 0 <= i < j < |rows| ==> rows[i].id != rows[j].id
  }

  /** A published budget: frozen sums, one cotisation per unit with a positive share. */
  ghost predicate Settled(s: System, id: string)
    requires id in s.budgets
  {
    && !s.budgets[id].deleted && id in s.history
    && SumCotisations(s.cotisations, id) == SumExpenses(s.expenses, id)
    && CalledUnits(s.cotisations, id) == Collect(IdOf, PositiveShares(s.history[id]))
    && DistinctUnits(s.history[id])
  }

  ghost predicate TxGood(s: System, t: Tx) {
    && Live(s, t.budget) && s.budgets[t.budget].draft
    && (!t.Editing? ==> t.amount == SumExpenses(s.expenses, t.budget))
    && (t.Frozen? ==> multiset(t.units) == multiset(s.units))
  }

  /** The cotisations in the table all belong to published budgets. */
  predicate OnlyPublishedCalled(s: System) {
    forall i :: 0 <= i < |s.cotisations| ==>
      s.cotisations[i].budget in s.budgets && !s.budgets[s.cotisations[i].budget].draft
  }

  predicate LocksExclude(txs: map<nat, Tx>) {
    forall t, u :: t in txs && u in txs && t != u ==> txs[t].budget != txs[u].budget
  }

  ghost predicate Good(s: System) {
    && DistinctExpenses(s.expenses) && DistinctUnits(s.units) && LocksExclude(s.txs) && OnlyPublishedCalled(s)
    && (forall t :: t in s.txs ==> TxGood(s, s.txs[t]))
    && (forall id :: id in s.budgets && !s.budgets[id].draft ==> Settled(s, id))
  }

  // ---- What a transaction may touch ----

  /** The rows change only for one budget, and never change owner. */
  predicate OnlyTouches(before: seq<Expense>, after: seq<Expense>, id: string) {
    && |before| <= |after|
    && (forall i :: 0 <= i < |before| ==> after[i].id == before[i].id && after[i].budget == before[i].budget)
    && (forall i :: 0 <= i < |before| && before[i].budget != id ==> after[i] == before[i])
    && (forall i :: |before| <= i < |after| ==> after[i].budget == id)
  }

  lemma {:induction false} UntouchedSum(before: seq<Expense>, after: seq<Expense>, id: string, other: string)
    requires OnlyTouches(before, after, id) && other != id
    ensures SumExpenses(after, other) == SumExpenses(before, other)
    decreases |after|
  {
    if |after| > |before| {
      UntouchedSum(before, after[..|after| - 1], id, other);
    } else if after != [] {
      UntouchedSum(before[..|before| - 1], after[..|after| - 1], id, other);
    }
  }

  lemma EditKeepsGood(s: System, tx: nat, rows: seq<Expense>)
    requires Good(s) && IsEditing(s, tx) && OnlyTouches(s.expenses, rows, s.txs[tx].budget) && DistinctExpenses(rows)
    ensures Good(Close(s.(expenses := rows), tx))
  {
    hide SumExpenses, SumCotisations, CalledUnits, Collect, PositiveShares, DistinctExpenses, DistinctUnits, OnlyTouches;
    var id, after := s.txs[tx].budget, Close(s.(expenses := rows), tx);
    forall other: string | other != id
      ensures SumExpenses(rows, other) == SumExpenses(s.expenses, other)
    {
      UntouchedSum(s.expenses, rows, id, other);
    }
    forall other | other in after.budgets && !after.budgets[other].draft
      ensures Settled(after, other)
    {
      assert TxGood(s, s.txs[tx]);
      assert Settled(s, other);
    }
    forall t | t in after.txs
      ensures TxGood(after, after.txs[t])
    {
      assert TxGood(s, s.txs[t]);
    }
  }

  lemma CloseKeepsGood(s: System, tx: nat)
    requires Good(s)
    ensures Good(Close(s, tx))
  {
    hide SumExpenses, SumCotisations, CalledUnits, Collect, PositiveShares, DistinctExpenses, DistinctUnits;
    var after := Close(s, tx);
    forall other | other in after.budgets && !after.budgets[other].draft
      ensures Settled(after, other)
    {
      assert Settled(s, other);
    }
    forall t | t in after.txs
      ensures TxGood(after, after.txs[t])
    {
      assert TxGood(s, s.txs[t]);
    }
  }

  /** Writing one draft row of the budget table that no transaction holds, or that only
      the closing one held. */
  lemma DraftKeepsGood(s: System, id: string, b: Budget)
    requires Good(s) && !HeldBy(s.txs, id) && b.draft && (id in s.budgets ==> s.budgets[id].draft)
    ensures Good(s.(budgets := s.budgets[id := b]))
  {
    hide SumExpenses, SumCotisations, CalledUnits, Collect, PositiveShares, DistinctExpenses, DistinctUnits;
    var after := s.(budgets := s.budgets[id := b]);
    forall other | other in after.budgets && !after.budgets[other].draft
      ensures Settled(after, other)
    {
      assert Settled(s, other);
    }
    forall t | t in after.txs
      ensures TxGood(after, after.txs[t])
    {
      assert TxGood(s, s.txs[t]);
      assert s.txs[t].budget != id;
    }
  }

  lemma RelabelKeepsGood(s: System, id: string, title: string)
    requires Good(s)
    ensures Good(Relabelled(s, id, title))
  {
    hide SumExpenses, SumCotisations, CalledUnits, Collect, PositiveShares, DistinctExpenses, DistinctUnits;
    var after := Relabelled(s, id, title);
    forall other | other in after.budgets && !after.budgets[other].draft
      ensures Settled(after, other)
    {
      assert Settled(s, other);
    }
    forall t | t in after.txs
      ensures TxGood(after, after.txs[t])
    {
      assert TxGood(s, s.txs[t]);
    }
  }

  // ---- Transactions of a draft ----

  lemma LockKeepsGood(s: System, tx: nat, id: string, enabled: bool)
    requires Good(s)
    ensures Good(Locked(s, tx, id, enabled))
  {
    hide SumExpenses, SumCotisations, CalledUnits, Collect, PositiveShares, DistinctExpenses, DistinctUnits;
    var after := Locked(s, tx, id, enabled);
    forall other | other in after.budgets && !after.budgets[other].draft
      ensures Settled(after, other)
    {
      assert Settled(s, other);
    }
    forall t | t in after.txs
      ensures TxGood(after, after.txs[t])
    {
      assert t in s.txs ==> TxGood(s, s.txs[t]);
    }
  }

  /** A transaction that goes on keeps the lock it has. */
  lemma AdvanceKeepsGood(s: System, tx: nat, t: Tx)
    requires Good(s) && tx in s.txs && t.budget == s.txs[tx].budget && TxGood(s, t)
    ensures Good(s.(txs := s.txs[tx := t]))
  {
    hide SumExpenses, SumCotisations, CalledUnits, Collect, PositiveShares, DistinctExpenses, DistinctUnits;
    var after := s.(txs := s.txs[tx := t]);
    forall other | other in after.budgets && !after.budgets[other].draft
      ensures Settled(after, other)
    {
      assert Settled(s, other);
    }
    forall u | u in after.txs
      ensures TxGood(after, after.txs[u])
    {
      assert u != tx ==> TxGood(s, s.txs[u]);
    }
  }

  lemma DeleteKeepsGood(s: System, tx: nat)
    requires Good(s) && IsEditing(s, tx) && s.txs[tx].budget in s.budgets
    ensures Good(Deleted(s, tx))
  {
    var id := s.txs[tx].budget;
    if !NoCotisation(s.cotisations, id) {
      CloseKeepsGood(s, tx);
    } else {
      var rows := WithoutExpenses(s.expenses, id);
      EditKeepsGood(s, tx, rows);
      var closed := Close(s.(expenses := rows), tx);
      DraftKeepsGood(closed, id, s.budgets[id].(deleted := true));
      assert Deleted(s, tx) == closed.(budgets := closed.budgets[id := s.budgets[id].(deleted := true)]);
    }
  }

  lemma InsertKeepsGood(s: System, tx: nat, expense: string, amount: Amount)
    requires Good(s) && IsEditing(s, tx)
    ensures Good(Inserted(s, tx, expense, amount))
  {
    hide Settled, TxGood, DistinctUnits, SumExpenses, ValidInput;
    CloseKeepsGood(s, tx);
    if FreshExpense(s.expenses, expense) {
      EditKeepsGood(s, tx, s.expenses + [Expense(expense, s.txs[tx].budget, amount, false)]);
    }
  }

  /** A row found by its ID and its budget is the only row with that ID. */
  lemma ChangeKeepsGood(s: System, tx: nat, expense: string, amount: Amount)
    requires Good(s) && IsEditing(s, tx)
    ensures Good(Changed(s, tx, expense, amount))
  {
    hide Settled, TxGood, DistinctUnits, SumExpenses, ValidInput;
    CloseKeepsGood(s, tx);
    if ExpenseOf(s.expenses, expense, s.txs[tx].budget) {
      var k :| 0 <= k < |s.expenses| && s.expenses[k].id == expense && OfBudget(s.expenses[k], s.txs[tx].budget);
      EditKeepsGood(s, tx, WithExpense(s.expenses, expense, amount));
    }
  }

  lemma DropKeepsGood(s: System, tx: nat, expense: string)
    requires Good(s) && IsEditing(s, tx)
    ensures Good(Dropped(s, tx, expense))
  {
    hide Settled, TxGood, DistinctUnits, SumExpenses;
    CloseKeepsGood(s, tx);
    if ExpenseOf(s.expenses, expense, s.txs[tx].budget) {
      var k :| 0 <= k < |s.expenses| && s.expenses[k].id == expense && OfBudget(s.expenses[k], s.txs[tx].budget);
      EditKeepsGood(s, tx, WithoutExpense(s.expenses, expense));
    }
  }

  // ---- Units ----

  lemma UnitsKeepGood(s: System, units: seq<Unit>)
    requires Good(s) && !UnitsLocked(s.txs) && DistinctUnits(units)
    ensures Good(s.(units := units))
  {
    hide SumExpenses, SumCotisations, CalledUnits, Collect, PositiveShares, DistinctExpenses, DistinctUnits;
    var after := s.(units := units);
    forall other | other in after.budgets && !after.budgets[other].draft
      ensures Settled(after, other)
    {
      assert Settled(s, other);
    }
    forall t | t in after.txs
      ensures TxGood(after, after.txs[t])
    {
      assert TxGood(s, s.txs[t]);
    }
  }

  lemma {:induction false} IdsKnown(units: seq<Unit>, id: string)
    ensures id in Collect(IdOf, units) <==> KnownUnit(units, id)
  {
    if units != [] {
      var n := |units| - 1;
      IdsKnown(units[..n], id);
      if KnownUnit(units, id) && units[n].id != id {
        var i :| 0 <= i < |units| && units[i].id == id;
        assert units[..n][i].id == id;
      }
      if KnownUnit(units[..n], id) {
        var i :| 0 <= i < n && units[..n][i].id == id;
        assert units[i].id == id;
      }
    }
  }

  lemma AddedUnit(units: seq<Unit>, u: Unit)
    requires DistinctUnits(units) && !KnownUnit(units, u.id)
    ensures DistinctUnits(units + [u])
  {
    IdsKnown(units, u.id);
    assert (units + [u])[..|units|] == units;
  }

  lemma {:induction false} ReplacedIds(units: seq<Unit>, u: Unit)
    ensures Collect(IdOf, ReplaceUnit(units, u)) == Collect(IdOf, units)
  {
    if units != [] {
      var n := |units| - 1;
      ReplacedIds(units[..n], u);
      assert ReplaceUnit(units, u)[..n] == ReplaceUnit(units[..n], u);
    }
  }

  lemma {:induction false} RemovedIds(units: seq<Unit>, id: string)
    ensures Collect(IdOf, RemoveUnit(units, id)) <= Collect(IdOf, units)
  {
    if units != [] {
      var n := |units| - 1;
      RemovedIds(units[..n], id);
      var rest := RemoveUnit(units[..n], id);
      assert (rest + [units[n]])[..|rest|] == rest && rest + [] == rest;
    }
  }

  // ---- Publication ----

  lemma {:induction false} NothingCalled(rows: seq<Cotisation>, id: string)
    requires NoCotisation(rows, id)
    ensures SumCotisations(rows, id) == 0.0 && CalledUnits(rows, id) == multiset{}
    decreases |rows|
  {
    if rows != [] {
      NothingCalled(rows[..|rows| - 1], id);
    }
  }

  lemma SplitLast(rows: seq<Cotisation>, id: string, split: seq<Allotment>)
    requires split != []
    ensures var n := |split| - 1;
            var all := rows + CotisationsFor(id, split);
            && all[..|all| - 1] == rows + CotisationsFor(id, split[..n])
            && all[|all| - 1] == Cotisation(id, split[n].unit.id, split[n].amount)
  {}

  lemma {:induction false} SumAppended(rows: seq<Cotisation>, id: string, split: seq<Allotment>, other: string)
    ensures SumCotisations(rows + CotisationsFor(id, split), other)
         == SumCotisations(rows, other) + if other == id then SumAmounts(split) else 0.0
    decreases |split|
  {
    if split == [] {
      assert rows + CotisationsFor(id, split) == rows;
    } else {
      SplitLast(rows, id, split);
      SumAppended(rows, id, split[..|split| - 1], other);
    }
  }

  lemma {:induction false} UnitsAppended(rows: seq<Cotisation>, id: string, split: seq<Allotment>, other: string)
    ensures CalledUnits(rows + CotisationsFor(id, split), other)
         == CalledUnits(rows, other) + if other == id then Collect(IdOf, UnitsOf(split)) else multiset{}
    decreases |split|
  {
    if split == [] {
      assert rows + CotisationsFor(id, split) == rows;
    } else {
      var n := |split| - 1;
      SplitLast(rows, id, split);
      UnitsAppended(rows, id, split[..n], other);
      assert UnitsOf(split)[..n] == UnitsOf(split[..n]);
    }
  }

  lemma SplitUnits(amount: Amount, units: seq<Unit>, order: seq<Portion>, split: seq<Allotment>)
    requires ValidInput(amount) && IsSplit(ToCents(amount), units, order, split)
    ensures SumAmounts(split) == amount
    ensures Collect(IdOf, UnitsOf(split)) == Collect(IdOf, PositiveShares(units))
  {
    hide IsSplit, SumAmounts, Collect, UnitsOf, PositiveShares, ValidInput;
    ValidInputIsCents(amount);
    SplitIsExact(ToCents(amount), units, order, split);
    SplitServesPositiveShares(ToCents(amount), units, order, split);
    CollectPermutation(IdOf, UnitsOf(split), PositiveShares(units));
  }

  /** What a publication writes for its own budget. */
  lemma PublishSettles(s: System, tx: nat, order: seq<Portion>, split: seq<Allotment>)
    requires Good(s) && Publishable(s, tx, order, split)
    ensures Settled(PublishedSystem(s, tx, order, split), s.txs[tx].budget)
  {
    hide IsSplit, SumAmounts, Collect, UnitsOf, PositiveShares, ValidInput, SumExpenses, SumCotisations, CalledUnits;
    var t := s.txs[tx];
    assert TxGood(s, t);
    assert NoCotisation(s.cotisations, t.budget);
    NothingCalled(s.cotisations, t.budget);
    SumAppended(s.cotisations, t.budget, split, t.budget);
    UnitsAppended(s.cotisations, t.budget, split, t.budget);
    SplitUnits(t.amount, t.units, order, split);
    CollectPermutation(IdOf, s.units, t.units);
  }

  lemma PublishKeepsGood(s: System, tx: nat, order: seq<Portion>, split: seq<Allotment>)
    requires Good(s) && Publishable(s, tx, order, split)
    ensures Good(PublishedSystem(s, tx, order, split))
  {
    hide SumExpenses, SumCotisations, CalledUnits, Collect, PositiveShares, DistinctExpenses, DistinctUnits, IsSplit, ValidInput;
    var after, id := PublishedSystem(s, tx, order, split), s.txs[tx].budget;
    PublishSettles(s, tx, order, split);
    forall other | other in after.budgets && !after.budgets[other].draft && other != id
      ensures Settled(after, other)
    {
      assert Settled(s, other);
      SumAppended(s.cotisations, id, split, other);
      UnitsAppended(s.cotisations, id, split, other);
      assert CalledUnits(s.cotisations, other) + multiset{} == CalledUnits(s.cotisations, other);
    }
    forall t | t in after.txs
      ensures TxGood(after, after.txs[t])
    {
      assert TxGood(s, s.txs[t]);
    }
  }

  // ---- Every run ----

  /** The tables before any handler ran. */
  function Empty(): System {
    System(map[], [], [], [], map[], map[])
  }

  lemma EmptyIsGood()
    ensures Good(Empty())
  {}

  lemma StepKeepsGood(s: System, step: Step)
    requires Good(s)
    ensures Good(Next(s, step))
  {
    hide SumExpenses, SumCotisations, CalledUnits, Collect, PositiveShares, DistinctExpenses, IsSplit, ValidInput,
         Deleted, Inserted, Changed, Dropped, Relabelled, Locked, PublishedSystem, SharesAccepted, OnlyPublishedCalled;
    match step
    case CreateBudget(id, title) =>
      if id !in s.budgets {
        forall t | t in s.txs
          ensures s.txs[t].budget != id
        {
          assert TxGood(s, s.txs[t]);
        }
        DraftKeepsGood(s, id, Budget(title, true, false));
      }
    case UpdateBudget(id, title) => RelabelKeepsGood(s, id, title);
    case Lock(tx, id, enabled) => LockKeepsGood(s, tx, id, enabled);
    case Rollback(tx) => CloseKeepsGood(s, tx);
    case DeleteBudget(tx) =>
      if IsEditing(s, tx) && s.txs[tx].budget in s.budgets {
        DeleteKeepsGood(s, tx);
      }
    case CreateExpense(tx, e, amount) =>
      if IsEditing(s, tx) {
        InsertKeepsGood(s, tx, e, amount);
      }
    case UpdateExpense(tx, e, amount) =>
      if IsEditing(s, tx) {
        ChangeKeepsGood(s, tx, e, amount);
      }
    case DeleteExpense(tx, e) =>
      if IsEditing(s, tx) {
        DropKeepsGood(s, tx, e);
      }
    case Preview(tx) =>
      if IsEditing(s, tx) {
        var id := s.txs[tx].budget;
        CloseKeepsGood(s, tx);
        assert TxGood(s, s.txs[tx]);
        AdvanceKeepsGood(s, tx, Previewed(id, SumExpenses(s.expenses, id)));
      }
    case Freeze(tx, listed) =>
      if tx in s.txs && s.txs[tx].Previewed? && multiset(listed) == multiset(s.units) {
        assert TxGood(s, s.txs[tx]);
        AdvanceKeepsGood(s, tx, Frozen(s.txs[tx].budget, s.txs[tx].amount, listed));
      }
    case Publish(tx, order, split) =>
      if Publishable(s, tx, order, split) {
        PublishKeepsGood(s, tx, order, split);
      }
    case CreateUnit(u) =>
      if !UnitsLocked(s.txs) && !KnownUnit(s.units, u.id) {
        AddedUnit(s.units, u);
        UnitsKeepGood(s, s.units + [u]);
      }
    case UpdateUnit(u) =>
      if !UnitsLocked(s.txs) {
        ReplacedIds(s.units, u);
        UnitsKeepGood(s, ReplaceUnit(s.units, u));
      }
    case DeleteUnit(id) =>
      if !UnitsLocked(s.txs) {
        RemovedIds(s.units, id);
        UnitsKeepGood(s, RemoveUnit(s.units, id));
      }
  }

  lemma {:induction false} RunsAreGood(s: System, steps: seq<Step>)
    requires Good(s)
    ensures Good(Run(s, steps))
    decreases |steps|
  {
    if steps != [] {
      RunsAreGood(s, steps[..|steps| - 1]);
      StepKeepsGood(Run(s, steps[..|steps| - 1]), steps[|steps| - 1]);
    }
  }

  // ---- What this means for one published budget ----

  lemma CollectAppend<A, B>(f: A -> multiset<B>, s: seq<A>, x: A)
    ensures Collect(f, s + [x]) == Collect(f, s) + f(x)
  {
    assert (s + [x])[..|s|] == s;
  }

  lemma {:induction false} PositiveIds(units: seq<Unit>)
    ensures Collect(IdOf, PositiveShares(units)) <= Collect(IdOf, units)
  {
    if units != [] {
      var n := |units| - 1;
      PositiveIds(units[..n]);
      var rest := PositiveShares(units[..n]);
      assert Collect(IdOf, units) == Collect(IdOf, units[..n]) + IdOf(units[n]);
      CollectAppend(IdOf, rest, units[n]);
      assert rest + [] == rest;
    }
  }

  predicate HadShare(units: seq<Unit>, id: string) {
    exists i :: 0 <= i < |units| && units[i].id == id && units[i].share != 0
  }

  lemma {:induction false} PositiveKnown(units: seq<Unit>, id: string)
    ensures KnownUnit(PositiveShares(units), id) <==> HadShare(units, id)
  {
    if units != [] {
      var n := |units| - 1;
      var rest, all := PositiveShares(units[..n]), PositiveShares(units);
      PositiveKnown(units[..n], id);
      if KnownUnit(rest, id) {
        var i :| 0 <= i < n && units[..n][i].id == id && units[..n][i].share != 0;
        assert units[i].id == id && units[i].share != 0;
        var k :| 0 <= k < |rest| && rest[k].id == id;
        assert all[k].id == id;
      }
      if units[n].share != 0 {
        assert all == rest + [units[n]];
        assert all[|rest|] == units[n];
      } else {
        assert all == rest;
      }
    }
  }

  /** Each unit that had a positive share when the budget was published has exactly one
      cotisation, and no other unit has one. */
  lemma OneCotisationEach(s: System, id: string, unit: string)
    requires Good(s) && Published(s, id)
    ensures id in s.history
    ensures CalledUnits(s.cotisations, id)[unit]
         == if HadShare(s.history[id], unit) then 1 else 0
  {
    hide SumExpenses, SumCotisations, CalledUnits, Collect, PositiveShares, KnownUnit;
    assert Settled(s, id);
    PositiveIds(s.history[id]);
    PositiveKnown(s.history[id], unit);
    IdsKnown(PositiveShares(s.history[id]), unit);
  }

  /** The units of a publication are those of the table when it commits. */
  lemma PublishedFromPresentUnits(s: System, tx: nat, order: seq<Portion>, split: seq<Allotment>)
    requires Good(s) && Publishable(s, tx, order, split)
    ensures var after := Next(s, Publish(tx, order, split));
            && Published(after, s.txs[tx].budget)
            && multiset(after.history[s.txs[tx].budget]) == multiset(s.units)
  {
    hide IsSplit, ValidInput, SumExpenses, SumCotisations, CalledUnits, Collect;
    assert TxGood(s, s.txs[tx]);
  }

  /** The rows of a budget, of either table, are the same in two states. */
  predicate SameRows(s: System, t: System, id: string) {
    && |s.expenses| <= |t.expenses| && |s.cotisations| <= |t.cotisations|
    && (forall i :: 0 <= i < |s.expenses| && s.expenses[i].budget == id ==> t.expenses[i] == s.expenses[i])
    && (forall i :: 0 <= i < |s.expenses| ==> (t.expenses[i].budget == id <==> s.expenses[i].budget == id))
    && (forall i :: |s.expenses| <= i < |t.expenses| ==> t.expenses[i].budget != id)
    && (forall i :: 0 <= i < |s.cotisations| ==> t.cotisations[i] == s.cotisations[i])
    && (forall i :: |s.cotisations| <= i < |t.cotisations| ==> t.cotisations[i].budget != id)
  }

  /** A published budget before and after a step. */
  predicate Kept(s: System, t: System, id: string) {
    && Published(t, id) && SameRows(s, t, id)
    && id in s.history && id in t.history && t.history[id] == s.history[id]
  }

  lemma EditKeeps(s: System, tx: nat, rows: seq<Expense>, id: string)
    requires Published(s, id) && id in s.history
    requires IsEditing(s, tx) && OnlyTouches(s.expenses, rows, s.txs[tx].budget) && s.txs[tx].budget != id
    ensures Kept(s, Close(s.(expenses := rows), tx), id)
  {}

  lemma CloseKeeps(s: System, tx: nat, id: string)
    requires Published(s, id) && id in s.history
    ensures Kept(s, Close(s, tx), id)
  {}

  lemma InsertKeeps(s: System, tx: nat, expense: string, amount: Amount, id: string)
    requires Published(s, id) && id in s.history && IsEditing(s, tx) && s.txs[tx].budget != id
    ensures Kept(s, Inserted(s, tx, expense, amount), id)
  {
    hide ValidInput, Kept, Close;
    CloseKeeps(s, tx, id);
    EditKeeps(s, tx, s.expenses + [Expense(expense, s.txs[tx].budget, amount, false)], id);
  }

  lemma ChangeKeeps(s: System, tx: nat, expense: string, amount: Amount, id: string)
    requires Published(s, id) && id in s.history
    requires DistinctExpenses(s.expenses) && IsEditing(s, tx) && s.txs[tx].budget != id
    ensures Kept(s, Changed(s, tx, expense, amount), id)
  {
    hide ValidInput, Kept, Close;
    CloseKeeps(s, tx, id);
    if ExpenseOf(s.expenses, expense, s.txs[tx].budget) {
      var k :| 0 <= k < |s.expenses| && s.expenses[k].id == expense && OfBudget(s.expenses[k], s.txs[tx].budget);
      EditKeeps(s, tx, WithExpense(s.expenses, expense, amount), id);
    }
  }

  lemma DropKeeps(s: System, tx: nat, expense: string, id: string)
    requires Published(s, id) && id in s.history
    requires DistinctExpenses(s.expenses) && IsEditing(s, tx) && s.txs[tx].budget != id
    ensures Kept(s, Dropped(s, tx, expense), id)
  {
    hide Kept, Close;
    CloseKeeps(s, tx, id);
    if ExpenseOf(s.expenses, expense, s.txs[tx].budget) {
      var k :| 0 <= k < |s.expenses| && s.expenses[k].id == expense && OfBudget(s.expenses[k], s.txs[tx].budget);
      EditKeeps(s, tx, WithoutExpense(s.expenses, expense), id);
    }
  }

  lemma DeleteKeeps(s: System, tx: nat, id: string)
    requires Published(s, id) && id in s.history
    requires IsEditing(s, tx) && s.txs[tx].budget in s.budgets && s.txs[tx].budget != id
    ensures Kept(s, Deleted(s, tx), id)
  {
    EditKeeps(s, tx, WithoutExpenses(s.expenses, s.txs[tx].budget), id);
  }

  lemma PublishKeeps(s: System, tx: nat, order: seq<Portion>, split: seq<Allotment>, id: string)
    requires Published(s, id) && id in s.history
    requires Publishable(s, tx, order, split) && s.txs[tx].budget != id
    ensures Kept(s, PublishedSystem(s, tx, order, split), id)
  {
    hide ValidInput, IsSplit;
  }

  lemma RelabelKeeps(s: System, id: string, other: string, title: string)
    requires Published(s, id) && id in s.history
    ensures Kept(s, Relabelled(s, other, title), id)
  {}

  /** Nothing that any handler does changes a published budget, its expenses or its base
      cotisations, apart from its title. */
  lemma StepFreezesPublished(s: System, step: Step, id: string)
    requires Good(s) && Published(s, id)
    ensures Kept(s, Next(s, step), id)
  {
    assert Settled(s, id) && DistinctExpenses(s.expenses);
    assert Kept(s, s, id);
    forall t | t in s.txs
      ensures s.txs[t].budget != id
    {
      assert TxGood(s, s.txs[t]);
    }
    NextKeeps(s, step, id);
  }

  lemma NextKeeps(s: System, step: Step, id: string)
    requires Published(s, id) && id in s.history && DistinctExpenses(s.expenses)
    requires forall t :: t in s.txs ==> s.txs[t].budget != id
    ensures Kept(s, Next(s, step), id)
  {
    hide Deleted, Inserted, Changed, Dropped, Relabelled, PublishedSystem, Publishable, DistinctExpenses, SumExpenses, Ready,
         ReplaceUnit, RemoveUnit;
    match step
    case UpdateBudget(other, title) => RelabelKeeps(s, id, other, title);
    case DeleteBudget(tx) =>
      if IsEditing(s, tx) && s.txs[tx].budget in s.budgets {
        DeleteKeeps(s, tx, id);
      }
    case CreateExpense(tx, e, amount) =>
      if IsEditing(s, tx) {
        InsertKeeps(s, tx, e, amount, id);
      }
    case UpdateExpense(tx, e, amount) =>
      if IsEditing(s, tx) {
        ChangeKeeps(s, tx, e, amount, id);
      }
    case DeleteExpense(tx, e) =>
      if IsEditing(s, tx) {
        DropKeeps(s, tx, e, id);
      }
    case Publish(tx, order, split) =>
      if Publishable(s, tx, order, split) {
        PublishedElsewhere(s, tx, order, split, id);
        PublishKeeps(s, tx, order, split, id);
      }
    case _ =>
  }

  lemma PublishedElsewhere(s: System, tx: nat, order: seq<Portion>, split: seq<Allotment>, id: string)
    requires Publishable(s, tx, order, split) && forall t :: t in s.txs ==> s.txs[t].budget != id
    ensures tx in s.txs && s.txs[tx].budget != id
  {
    hide IsSplit;
  }

  /** Publication is for ever: over every run from a good state a published budget stays
      published with the same rows, and its cotisations still add up to its expenses. */
  lemma {:induction false} PublicationIsForever(s: System, steps: seq<Step>, id: string)
    requires Good(s) && Published(s, id)
    ensures Kept(s, Run(s, steps), id)
    ensures SumCotisations(Run(s, steps).cotisations, id) == SumExpenses(Run(s, steps).expenses, id)
    decreases |steps|
  {
    hide SumExpenses, SumCotisations, CalledUnits, Collect, Next, PositiveShares, DistinctUnits, DistinctExpenses;
    assert Settled(s, id);
    if steps != [] {
      var before := Run(s, steps[..|steps| - 1]);
      RunsAreGood(s, steps[..|steps| - 1]);
      PublicationIsForever(s, steps[..|steps| - 1], id);
      StepFreezesPublished(before, steps[|steps| - 1], id);
      RunsAreGood(s, steps);
      assert Settled(Run(s, steps), id);
    }
  }

  /** Every published budget of every run from empty tables adds up, to the cent, and has
      one cotisation for each unit that had a positive share. */
  lemma EveryPublicationIsSettled(steps: seq<Step>, id: string)
    requires Published(Run(Empty(), steps), id)
    ensures var s := Run(Empty(), steps);
            && SumCotisations(s.cotisations, id) == SumExpenses(s.expenses, id)
            && id in s.history
            && (forall unit :: CalledUnits(s.cotisations, id)[unit] == if HadShare(s.history[id], unit) then 1 else 0)
  {
    hide SumExpenses, SumCotisations, CalledUnits, Run, DistinctUnits, DistinctExpenses, PositiveShares, Collect, HadShare;
    EmptyIsGood();
    RunsAreGood(Empty(), steps);
    var s := Run(Empty(), steps);
    assert Settled(s, id);
    forall unit
      ensures CalledUnits(s.cotisations, id)[unit] == if HadShare(s.history[id], unit) then 1 else 0
    {
      OneCotisationEach(s, id, unit);
    }
  }
}

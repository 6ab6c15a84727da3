/** What each transaction on a draft does to its rows and to its total. */
module DraftEdits {
  import opened Money
  import opened Allocation
  import opened Publication
  import opened PublicationSafety

  lemma {:induction false} SumUpdate(rows: seq<Expense>, i: nat, e: Expense, id: string)
    requires i < |rows|
    ensures SumExpenses(rows[i := e], id) == SumExpenses(rows, id) - Counted(rows[i], id) + Counted(e, id)
    decreases |rows|
  {
    var n := |rows| - 1;
    if i == n {
      assert rows[i := e][..n] == rows[..n];
    } else {
      assert rows[i := e][..n] == rows[..n][i := e];
      SumUpdate(rows[..n], i, e, id);
    }
  }

  /** What a row adds to the total of a budget. */
  function Counted(e: Expense, id: string): Amount {
    if OfBudget(e, id) then e.amount else 0.0
  }

  /** The live row of that ID in the budget of a transaction. */
  predicate IsRow(s: System, tx: nat, expense: string, i: nat) {
    IsEditing(s, tx) && i < |s.expenses| && s.expenses[i].id == expense && OfBudget(s.expenses[i], s.txs[tx].budget)
  }

  /** A valid amount under a new ID is added, and the total of that budget alone grows by it. */
  lemma InsertDoes(s: System, tx: nat, expense: string, amount: Amount, id: string)
    requires IsEditing(s, tx)
    ensures var after := Next(s, CreateExpense(tx, expense, amount));
            if ValidInput(amount) && FreshExpense(s.expenses, expense) then
              && after.expenses == s.expenses + [Expense(expense, s.txs[tx].budget, amount, false)]
              && SumExpenses(after.expenses, id) == SumExpenses(s.expenses, id) + if id == s.txs[tx].budget then amount else 0.0
            else after.expenses == s.expenses
  {
    var e := Expense(expense, s.txs[tx].budget, amount, false);
    assert (s.expenses + [e])[..|s.expenses|] == s.expenses;
  }

  /** A valid amount replaces that of one live row of the budget, and the total follows. */
  lemma ChangeDoes(s: System, tx: nat, expense: string, amount: Amount, i: nat, id: string)
    requires DistinctExpenses(s.expenses) && IsRow(s, tx, expense, i)
    ensures var after := Next(s, UpdateExpense(tx, expense, amount));
            if ValidInput(amount) then
              && after.expenses == s.expenses[i := s.expenses[i].(amount := amount)]
              && SumExpenses(after.expenses, id)
                 == SumExpenses(s.expenses, id) + if id == s.txs[tx].budget then amount - s.expenses[i].amount else 0.0
            else after.expenses == s.expenses
  {
    hide ValidInput;
    SumUpdate(s.expenses, i, s.expenses[i].(amount := amount), id);
    assert WithExpense(s.expenses, expense, amount) == s.expenses[i := s.expenses[i].(amount := amount)];
  }

  /** One live row of the budget is marked as deleted, and the total falls by its amount. */
  lemma DropDoes(s: System, tx: nat, expense: string, i: nat, id: string)
    requires DistinctExpenses(s.expenses) && IsRow(s, tx, expense, i)
    ensures var after := Next(s, DeleteExpense(tx, expense));
            && after.expenses == s.expenses[i := s.expenses[i].(deleted := true)]
            && SumExpenses(after.expenses, id)
               == SumExpenses(s.expenses, id) - if id == s.txs[tx].budget then s.expenses[i].amount else 0.0
  {
    SumUpdate(s.expenses, i, s.expenses[i].(deleted := true), id);
    assert WithoutExpense(s.expenses, expense) == s.expenses[i := s.expenses[i].(deleted := true)];
  }

  /** Without such a row nothing changes. */
  lemma MissingDoesNothing(s: System, tx: nat, expense: string, amount: Amount)
    requires IsEditing(s, tx) && forall i: nat :: !IsRow(s, tx, expense, i)
    ensures Next(s, UpdateExpense(tx, expense, amount)).expenses == s.expenses
    ensures Next(s, DeleteExpense(tx, expense)).expenses == s.expenses
  {
    if ExpenseOf(s.expenses, expense, s.txs[tx].budget) {
      var i :| 0 <= i < |s.expenses| && s.expenses[i].id == expense && OfBudget(s.expenses[i], s.txs[tx].budget);
      assert IsRow(s, tx, expense, i);
    }
  }

  lemma {:induction false} NothingLeft(rows: seq<Expense>, id: string)
    requires forall i :: 0 <= i < |rows| ==> !OfBudget(rows[i], id)
    ensures SumExpenses(rows, id) == 0.0
  {
    if rows != [] {
      NothingLeft(rows[..|rows| - 1], id);
    }
  }

  /** A draft without cotisations goes with all its expenses; otherwise it stays. */
  lemma DeleteDoes(s: System, tx: nat)
    requires IsEditing(s, tx) && s.txs[tx].budget in s.budgets
    ensures var id, after := s.txs[tx].budget, Next(s, DeleteBudget(tx));
            if exists i :: 0 <= i < |s.cotisations| && s.cotisations[i].budget == id then
              after.budgets == s.budgets && after.expenses == s.expenses
            else
              && after.budgets == s.budgets[id := s.budgets[id].(deleted := true)]
              && |after.expenses| == |s.expenses|
              && (forall i :: 0 <= i < |s.expenses| ==>
                    after.expenses[i] == if s.expenses[i].budget == id then s.expenses[i].(deleted := true) else s.expenses[i])
              && SumExpenses(after.expenses, id) == 0.0
  {
    var id, after := s.txs[tx].budget, Next(s, DeleteBudget(tx));
    if NoCotisation(s.cotisations, id) {
      NothingLeft(after.expenses, id);
    }
  }

  /** A publication is prepared with the total of the expenses, exactly when the budget has
      no cotisation, its total and every live expense are amounts in range, and the shares
      are accepted. */
  lemma PrepareDoes(s: System, tx: nat)
    requires IsEditing(s, tx)
    ensures var id, after := s.txs[tx].budget, Next(s, Step.Preview(tx));
            if (forall i :: 0 <= i < |s.cotisations| ==> s.cotisations[i].budget != id)
               && (forall i :: 0 <= i < |s.expenses| && s.expenses[i].budget == id && !s.expenses[i].deleted ==> ValidInput(s.expenses[i].amount))
               && ValidInput(SumExpenses(s.expenses, id)) && SharesAccepted(s.units)
            then after == s.(txs := s.txs[tx := Previewed(id, SumExpenses(s.expenses, id))])
            else after == s.(txs := s.txs - {tx})
  {}

  // ---- Units ----

  lemma {:induction false} RemovedUnits(units: seq<Unit>, id: string, u: Unit)
    ensures u in RemoveUnit(units, id) <==> u in units && u.id != id
    decreases |units|
  {
    if units != [] {
      var n := |units| - 1;
      RemovedUnits(units[..n], id, u);
      assert u in units <==> u in units[..n] || u == units[n];
    }
  }

  /** While no publication holds the table, a unit is added under a new ID, replaced or
      removed, and the others stay; meanwhile nothing happens to the table. */
  lemma UnitDoes(s: System, u: Unit, id: string, other: Unit)
    ensures var locked := exists t :: t in s.txs && s.txs[t].Frozen?;
            var created, updated, removed := Next(s, CreateUnit(u)).units, Next(s, UpdateUnit(u)).units, Next(s, DeleteUnit(id)).units;
            if locked then created == updated == removed == s.units
            else
              && created == (if exists i :: 0 <= i < |s.units| && s.units[i].id == u.id then s.units else s.units + [u])
              && |updated| == |s.units|
              && (forall i :: 0 <= i < |s.units| ==> updated[i] == if s.units[i].id == u.id then u else s.units[i])
              && (other in removed <==> other in s.units && other.id != id)
  {
    RemovedUnits(s.units, id, other);
  }
}

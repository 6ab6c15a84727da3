/** The budget handlers (server/handlers/budget.go, and GetBudget of
    controllers/budgets.go) in their own form, over the tables they write. Each method is
    what a handler does between two lock operations, and is proved to be that step of
    Publication. */
module BudgetHandlers {
  import opened Wrappers
  import opened Money
  import opened Allocation
  import opened Publication

  class Tables {
    var budgets: map<string, Budget>
    var expenses: seq<Expense>
    var cotisations: seq<Cotisation>
    var units: seq<Unit>
    var txs: map<nat, Tx>
    ghost var history: map<string, seq<Unit>>

    constructor ()
      ensures State() == System(map[], [], [], [], map[], map[])
    {
      budgets, expenses, cotisations, units, txs, history := map[], [], [], [], map[], map[];
    }

    ghost function State(): System
      reads this
    {
      System(budgets, expenses, cotisations, units, txs, history)
    }

    // ---- Single statements ----

    method CreateNewBudget(id: string, title: string) returns (ok: bool)
      modifies this
      ensures State() == Next(old(State()), CreateBudget(id, title)) && (ok <==> id !in old(budgets))
    {
      if id in budgets {
        return false;
      }
      budgets := budgets[id := Budget(title, true, false)];
      return true;
    }

    /** Only the title column is written, so that a stale draft flag never comes back. */
    method UpdateTitle(id: string, title: string) returns (found: bool)
      modifies this
      ensures State() == Next(old(State()), UpdateBudget(id, title)) && (found ==> Live(old(State()), id))
    {
      if id !in budgets || budgets[id].deleted || HeldBy(txs, id) {
        return false;
      }
      budgets := budgets[id := budgets[id].(title := title)];
      return true;
    }

    // ---- Locking ----

    /** The row lock with the checks that follow it. */
    method LockDraftBudget(tx: nat, id: string, enabled: bool) returns (r: Result<Budget>)
      modifies this
      ensures State() == Next(old(State()), Lock(tx, id, enabled))
      ensures r.Ok? <==> tx !in old(txs) && !HeldBy(old(txs), id) && Live(old(State()), id) && enabled && old(budgets)[id].draft
    {
      if tx in txs || HeldBy(txs, id) {
        return Err("waiting");
      }
      if id !in budgets || budgets[id].deleted {
        return Err("budget not found");
      }
      if !enabled {
        return Err("account not active");
      }
      if !budgets[id].draft {
        return Err("published budget");
      }
      txs := txs[tx := Editing(id)];
      return Ok(budgets[id]);
    }

    method RollbackTransaction(tx: nat)
      modifies this
      ensures State() == Next(old(State()), Rollback(tx))
    {
      txs := txs - {tx};
    }

    // ---- Transactions on a draft ----

    method CountCotisations(id: string) returns (n: nat)
      ensures n == 0 <==> NoCotisation(cotisations, id)
    {
      n := 0;
      for i := 0 to |cotisations|
        invariant n == 0 <==> NoCotisation(cotisations[..i], id)
      {
        assert cotisations[..i + 1][i] == cotisations[i];
        assert forall j :: 0 <= j < i ==> cotisations[..i + 1][j] == cotisations[..i][j];
        if cotisations[i].budget == id {
          n := n + 1;
        }
      }
      assert cotisations[..|cotisations|] == cotisations;
    }

    method DeleteDraft(tx: nat) returns (ok: bool)
      requires IsEditing(State(), tx) && txs[tx].budget in budgets
      modifies this
      ensures State() == Next(old(State()), DeleteBudget(tx))
      ensures ok <==> NoCotisation(old(cotisations), old(txs[tx]).budget)
    {
      var id := txs[tx].budget;
      var n := CountCotisations(id);
      if n > 0 {
        txs := txs - {tx};
        return false;
      }
      var rows := expenses;
      for i := 0 to |rows|
        invariant |rows| == |expenses|
        invariant forall j :: 0 <= j < i ==> rows[j] == if OfBudget(expenses[j], id) then expenses[j].(deleted := true) else expenses[j]
        invariant forall j :: i <= j < |rows| ==> rows[j] == expenses[j]
      {
        if rows[i].budget == id && !rows[i].deleted {
          rows := rows[i := rows[i].(deleted := true)];
        }
      }
      assert rows == WithoutExpenses(expenses, id);
      expenses := rows;
      budgets := budgets[id := budgets[id].(deleted := true)];
      txs := txs - {tx};
      return true;
    }

    method InsertExpense(tx: nat, expense: string, amount: Amount) returns (ok: bool)
      requires IsEditing(State(), tx) && FreshExpense(expenses, expense)
      modifies this
      ensures State() == Next(old(State()), CreateExpense(tx, expense, amount)) && (ok <==> ValidInput(amount))
    {
      ok := ValidInput(amount);
      if ok {
        expenses := expenses + [Expense(expense, txs[tx].budget, amount, false)];
      }
      txs := txs - {tx};
    }

    /** First row with the ID among the live rows of the budget. */
    method FindExpense(expense: string, id: string) returns (found: bool)
      ensures found <==> ExpenseOf(expenses, expense, id)
    {
      for i := 0 to |expenses|
        invariant forall j :: 0 <= j < i ==> !(expenses[j].id == expense && OfBudget(expenses[j], id))
      {
        if expenses[i].id == expense && OfBudget(expenses[i], id) {
          return true;
        }
      }
      return false;
    }

    method ChangeExpense(tx: nat, expense: string, amount: Amount) returns (ok: bool)
      requires IsEditing(State(), tx)
      modifies this
      ensures State() == Next(old(State()), UpdateExpense(tx, expense, amount))
      ensures ok <==> ValidInput(amount) && ExpenseOf(old(expenses), expense, old(txs[tx]).budget)
    {
      ok := ValidInput(amount);
      if ok {
        ok := FindExpense(expense, txs[tx].budget);
      }
      if ok {
        var rows := expenses;
        for i := 0 to |rows|
          invariant |rows| == |expenses|
          invariant forall j :: 0 <= j < i ==> rows[j] == WithExpense(expenses, expense, amount)[j]
          invariant forall j :: i <= j < |rows| ==> rows[j] == expenses[j]
        {
          if rows[i].id == expense && !rows[i].deleted {
            rows := rows[i := rows[i].(amount := amount)];
          }
        }
        assert rows == WithExpense(expenses, expense, amount);
        expenses := rows;
      }
      txs := txs - {tx};
    }

    method RemoveExpense(tx: nat, expense: string) returns (ok: bool)
      requires IsEditing(State(), tx)
      modifies this
      ensures State() == Next(old(State()), DeleteExpense(tx, expense))
      ensures ok <==> ExpenseOf(old(expenses), expense, old(txs[tx]).budget)
    {
      ok := FindExpense(expense, txs[tx].budget);
      if ok {
        var rows := expenses;
        for i := 0 to |rows|
          invariant |rows| == |expenses|
          invariant forall j :: 0 <= j < i ==> rows[j] == WithoutExpense(expenses, expense)[j]
          invariant forall j :: i <= j < |rows| ==> rows[j] == expenses[j]
        {
          if rows[i].id == expense && !rows[i].deleted {
            rows := rows[i := rows[i].(deleted := true)];
          }
        }
        assert rows == WithoutExpense(expenses, expense);
        expenses := rows;
      }
      txs := txs - {tx};
    }

    // ---- Publication ----

    method SumLiveExpenses(id: string) returns (amount: Amount)
      ensures amount == SumExpenses(expenses, id)
    {
      amount := 0.0;
      for i := 0 to |expenses|
        invariant amount == SumExpenses(expenses[..i], id)
      {
        assert expenses[..i + 1][..i] == expenses[..i];
        if OfBudget(expenses[i], id) {
          amount := amount + expenses[i].amount;
        }
      }
      assert expenses[..|expenses|] == expenses;
    }

    /** PublishBudget up to its own reading of the units: no cotisation yet, and a
        preview that is ready for the units and expenses read with it. */
    method PreparePublication(tx: nat) returns (ready: bool)
      requires IsEditing(State(), tx)
      modifies this
      ensures State() == Next(old(State()), Step.Preview(tx))
      ensures ready <==> Ready(old(State()), old(txs[tx]).budget)
    {
      var id := txs[tx].budget;
      var existing := CountCotisations(id);
      var amount := SumLiveExpenses(id);
      var preview := BudgetPreview(amount, units);
      ready := existing == 0 && preview.ready;
      for i := 0 to |expenses|
        invariant ready <==> && NoCotisation(cotisations, id) && ValidInput(amount) && SharesAccepted(units)
                             && forall j :: 0 <= j < i && OfBudget(expenses[j], id) ==> ValidInput(expenses[j].amount)
      {
        if OfBudget(expenses[i], id) && !ValidInput(expenses[i].amount) {
          ready := false;
          break;
        }
      }
      if ready {
        txs := txs[tx := Previewed(id, amount)];
      } else {
        txs := txs - {tx};
      }
    }

    /** LOCK TABLE unit IN SHARE MODE, then the units, in any order. */
    method FreezeUnits(tx: nat, listed: seq<Unit>)
      requires tx in txs && txs[tx].Previewed? && multiset(listed) == multiset(units)
      modifies this
      ensures State() == Next(old(State()), Freeze(tx, listed))
    {
      txs := txs[tx := Frozen(txs[tx].budget, txs[tx].amount, listed)];
    }

    /** The rest of PublishBudget: the split, one cotisation each, and the draft flag. */
    method PublishFrozen(tx: nat) returns (ok: bool, ghost order: seq<Portion>, ghost split: seq<Allotment>)
      requires tx in txs && txs[tx].Frozen? && txs[tx].budget in budgets
      modifies this
      ensures ok ==> State() == Next(old(State()), Publish(tx, order, split)) && Publishable(old(State()), tx, order, split)
      ensures !ok ==> State() == Next(old(State()), Rollback(tx))
      ensures ok <==> ValidInput(old(txs[tx]).amount) && SharesAccepted(old(txs[tx]).units)
    {
      hide IsSplit, SharesAccepted, ValidInput;
      var t := txs[tx];
      var allocations, ordered := Allocate(t.amount, t.units);
      order, split := ordered, [];
      if allocations.Err? {
        txs := txs - {tx};
        return false, order, split;
      }
      split := allocations.value;
      var rows := cotisations;
      for i := 0 to |allocations.value|
        invariant rows == cotisations + CotisationsFor(t.budget, allocations.value)[..i]
      {
        rows := rows + [Cotisation(t.budget, allocations.value[i].unit.id, allocations.value[i].amount)];
      }
      cotisations := rows;
      budgets := budgets[t.budget := budgets[t.budget].(draft := false)];
      history := history[t.budget := t.units];
      txs := txs - {tx};
      return true, order, split;
    }
  }
}

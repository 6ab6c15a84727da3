/** server/handlers/budget.go: budgets, their expenses and their publication, as
    transactions that interleave under the row lock of a budget and the share lock of
    the unit table. Each step is what one transaction does between two lock operations. */
module Publication {
  import opened Money
  import opened Allocation

  datatype Budget = Budget(title: string, draft: bool, deleted: bool)

  datatype Expense = Expense(id: string, budget: string, amount: Amount, deleted: bool)

  datatype Cotisation = Cotisation(budget: string, unit: string, amount: Amount)

  /** An open transaction: it holds the row lock of its budget. A publication goes on to
      remember the amount it read, then the units it read under the table lock. */
  datatype Tx =
    | Editing(budget: string)
    | Previewed(budget: string, amount: Amount)
    | Frozen(budget: string, amount: Amount, units: seq<Unit>)

  /** The committed tables, the open transactions, and (for the statements only) the
      units each publication was computed from. */
  datatype System = System(budgets: map<string, Budget>, expenses: seq<Expense>, cotisations: seq<Cotisation>,
                           units: seq<Unit>, txs: map<nat, Tx>, history: map<string, seq<Unit>>)

  // ---- Queries ----

  predicate Live(s: System, id: string) {
    id in s.budgets && !s.budgets[id].deleted
  }

  predicate Published(s: System, id: string) {
    Live(s, id) && !s.budgets[id].draft
  }

  predicate OfBudget(e: Expense, id: string) {
    e.budget == id && !e.deleted
  }

  function SumExpenses(rows: seq<Expense>, id: string): Amount {
    if rows == [] then 0.0
    else SumExpenses(rows[..|rows| - 1], id) + if OfBudget(rows[|rows| - 1], id) then rows[|rows| - 1].amount else 0.0
  }

  function SumCotisations(rows: seq<Cotisation>, id: string): Amount {
    if rows == [] then 0.0
    else SumCotisations(rows[..|rows| - 1], id) + if rows[|rows| - 1].budget == id then rows[|rows| - 1].amount else 0.0
  }

  /** The units that have a cotisation of a budget, as often as they have one. */
  function CalledUnits(rows: seq<Cotisation>, id: string): multiset<string> {
    if rows == [] then multiset{}
    else CalledUnits(rows[..|rows| - 1], id) + if rows[|rows| - 1].budget == id then multiset{rows[|rows| - 1].unit} else multiset{}
  }

  predicate NoCotisation(rows: seq<Cotisation>, id: string) {
    forall i :: 0 <= i < |rows| ==> rows[i].budget != id
  }

  predicate AllValid(rows: seq<Expense>, id: string) {
    forall i :: 0 <= i < |rows| && OfBudget(rows[i], id) ==> ValidInput(rows[i].amount)
  }

  predicate ExpenseOf(rows: seq<Expense>, id: string, budget: string) {
    exists i :: 0 <= i < |rows| && rows[i].id == id && OfBudget(rows[i], budget)
  }

  predicate HeldBy(txs: map<nat, Tx>, id: string) {
    exists t :: t in txs && txs[t].budget == id
  }

  predicate UnitsLocked(txs: map<nat, Tx>) {
    exists t :: t in txs && txs[t].Frozen?
  }

  // ---- Steps ----

  datatype Step =
    | CreateBudget(id: string, title: string)
    | UpdateBudget(id: string, title: string)
    | Lock(tx: nat, id: string, enabled: bool)
    | Rollback(tx: nat)
    | DeleteBudget(tx: nat)
    | CreateExpense(tx: nat, expense: string, amount: Amount)
    | UpdateExpense(tx: nat, expense: string, amount: Amount)
    | DeleteExpense(tx: nat, expense: string)
    | Preview(tx: nat)
    | Freeze(tx: nat, listed: seq<Unit>)
    | Publish(tx: nat, order: seq<Portion>, split: seq<Allotment>)
    | CreateUnit(unit: Unit)
    | UpdateUnit(unit: Unit)
    | DeleteUnit(unitId: string)

  function Close(s: System, tx: nat): System {
    s.(txs := s.txs - {tx})
  }

  /** The label is written alone, and waits for the lock of the row. */
  function Relabelled(s: System, id: string, title: string): System {
    if Live(s, id) && !HeldBy(s.txs, id) then s.(budgets := s.budgets[id := s.budgets[id].(title := title)]) else s
  }

  /** Locking a budget and checking the permission: the account is enabled and the
      budget is a draft. */
  function Locked(s: System, tx: nat, id: string, enabled: bool): System {
    if tx !in s.txs && !HeldBy(s.txs, id) && Live(s, id) && enabled && s.budgets[id].draft then
      s.(txs := s.txs[tx := Editing(id)])
    else s
  }

  predicate IsEditing(s: System, tx: nat) {
    tx in s.txs && s.txs[tx].Editing?
  }

  function WithoutExpenses(rows: seq<Expense>, id: string): seq<Expense> {
    seq(|rows|, i requires 0 <= i < |rows| => if OfBudget(rows[i], id) then rows[i].(deleted := true) else rows[i])
  }

  function Deleted(s: System, tx: nat): System
    requires IsEditing(s, tx) && s.txs[tx].budget in s.budgets
  {
    var id := s.txs[tx].budget;
    if !NoCotisation(s.cotisations, id) then Close(s, tx)
    else
      Close(s.(budgets := s.budgets[id := s.budgets[id].(deleted := true)], expenses := WithoutExpenses(s.expenses, id)), tx)
  }

  function WithExpense(rows: seq<Expense>, id: string, amount: Amount): seq<Expense> {
    seq(|rows|, i requires 0 <= i < |rows| =>
      if rows[i].id == id && !rows[i].deleted then rows[i].(amount := amount) else rows[i])
  }

  function WithoutExpense(rows: seq<Expense>, id: string): seq<Expense> {
    seq(|rows|, i requires 0 <= i < |rows| =>
      if rows[i].id == id && !rows[i].deleted then rows[i].(deleted := true) else rows[i])
  }

  predicate FreshExpense(rows: seq<Expense>, id: string) {
    forall i :: 0 <= i < |rows| ==> rows[i].id != id
  }

  function Inserted(s: System, tx: nat, expense: string, amount: Amount): System
    requires IsEditing(s, tx)
  {
    if ValidInput(amount) && FreshExpense(s.expenses, expense) then
      Close(s.(expenses := s.expenses + [Expense(expense, s.txs[tx].budget, amount, false)]), tx)
    else Close(s, tx)
  }

  function Changed(s: System, tx: nat, expense: string, amount: Amount): System
    requires IsEditing(s, tx)
  {
    if ValidInput(amount) && ExpenseOf(s.expenses, expense, s.txs[tx].budget) then
      Close(s.(expenses := WithExpense(s.expenses, expense, amount)), tx)
    else Close(s, tx)
  }

  function Dropped(s: System, tx: nat, expense: string): System
    requires IsEditing(s, tx)
  {
    if ExpenseOf(s.expenses, expense, s.txs[tx].budget) then
      Close(s.(expenses := WithoutExpense(s.expenses, expense)), tx)
    else Close(s, tx)
  }

  /** The checks of PublishBudget before it freezes the units. */
  predicate Ready(s: System, id: string) {
    && NoCotisation(s.cotisations, id)
    && ValidInput(SumExpenses(s.expenses, id)) && SharesAccepted(s.units)
    && AllValid(s.expenses, id)
  }

  function Prepared(s: System, tx: nat): System
    requires IsEditing(s, tx)
  {
    var id := s.txs[tx].budget;
    if Ready(s, id) then s.(txs := s.txs[tx := Previewed(id, SumExpenses(s.expenses, id))]) else Close(s, tx)
  }

  function CotisationsFor(id: string, split: seq<Allotment>): seq<Cotisation> {
    seq(|split|, i requires 0 <= i < |split| => Cotisation(id, split[i].unit.id, split[i].amount))
  }

  predicate Publishable(s: System, tx: nat, order: seq<Portion>, split: seq<Allotment>) {
    && tx in s.txs && s.txs[tx].Frozen? && s.txs[tx].budget in s.budgets
    && ValidInput(s.txs[tx].amount) && IsSplit(ToCents(s.txs[tx].amount), s.txs[tx].units, order, split)
  }

  function PublishedSystem(s: System, tx: nat, order: seq<Portion>, split: seq<Allotment>): System
    requires Publishable(s, tx, order, split)
  {
    var t := s.txs[tx];
    Close(s.(cotisations := s.cotisations + CotisationsFor(t.budget, split),
             budgets := s.budgets[t.budget := s.budgets[t.budget].(draft := false)],
             history := s.history[t.budget := t.units]), tx)
  }

  predicate KnownUnit(units: seq<Unit>, id: string) {
    exists i :: 0 <= i < |units| && units[i].id == id
  }

  function ReplaceUnit(units: seq<Unit>, u: Unit): seq<Unit> {
    seq(|units|, i requires 0 <= i < |units| => if units[i].id == u.id then u else units[i])
  }

  function RemoveUnit(units: seq<Unit>, id: string): seq<Unit> {
    if units == [] then []
    else RemoveUnit(units[..|units| - 1], id) + if units[|units| - 1].id == id then [] else [units[|units| - 1]]
  }

  /** A step whose guard does not hold waits, or is refused without effect. */
  function Next(s: System, step: Step): System {
    match step
    case CreateBudget(id, title) => if id in s.budgets then s else s.(budgets := s.budgets[id := Budget(title, true, false)])
    case UpdateBudget(id, title) => Relabelled(s, id, title)
    case Lock(tx, id, enabled) => Locked(s, tx, id, enabled)
    case Rollback(tx) => Close(s, tx)
    case DeleteBudget(tx) => if IsEditing(s, tx) && s.txs[tx].budget in s.budgets then Deleted(s, tx) else s
    case CreateExpense(tx, e, amount) => if IsEditing(s, tx) then Inserted(s, tx, e, amount) else s
    case UpdateExpense(tx, e, amount) => if IsEditing(s, tx) then Changed(s, tx, e, amount) else s
    case DeleteExpense(tx, e) => if IsEditing(s, tx) then Dropped(s, tx, e) else s
    case Preview(tx) => if IsEditing(s, tx) then Prepared(s, tx) else s
    case Freeze(tx, listed) =>
      if tx in s.txs && s.txs[tx].Previewed? && multiset(listed) == multiset(s.units) then
        s.(txs := s.txs[tx := Frozen(s.txs[tx].budget, s.txs[tx].amount, listed)])
      else s
    case Publish(tx, order, split) => if Publishable(s, tx, order, split) then PublishedSystem(s, tx, order, split) else s
    case CreateUnit(u) => if UnitsLocked(s.txs) || KnownUnit(s.units, u.id) then s else s.(units := s.units + [u])
    case UpdateUnit(u) => if UnitsLocked(s.txs) then s else s.(units := ReplaceUnit(s.units, u))
    case DeleteUnit(id) => if UnitsLocked(s.txs) then s else s.(units := RemoveUnit(s.units, id))
  }

  function Run(s: System, steps: seq<Step>): System {
    if steps == [] then s else Next(Run(s, steps[..|steps| - 1]), steps[|steps| - 1])
  }
}

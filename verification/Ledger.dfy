/** The financial ledger after publication: cotisations, payments and the append-only
    refunds, adjustments and reversals (controllers/financial.go, the payment handlers
    of server/handlers/budget.go, and ListCotisations of controllers/budgets.go).

    Every write happens in a transaction that holds the budget's lock, so a run of the
    ledger is a sequence of the transactions below. */
module Ledger {
  import opened Wrappers
  import opened Money
  import Strings

  datatype Kind = Refund | Adjustment

  datatype Cotisation = Cotisation(id: string, budget: string, unit: string, amount: Amount)
  datatype Payment = Payment(id: string, cotisation: string, amount: Amount, updatedAt: string, deleted: bool)
  datatype Entry = Entry(id: string, cotisation: string, kind: Kind, amount: Amount,
                         date: string, reason: string, reference: string, reverses: Option<string>)

  /** The stored rows; a budget maps to whether it is a draft. */
  datatype Books = Books(budgets: map<string, bool>, cotisations: seq<Cotisation>,
                         payments: seq<Payment>, entries: seq<Entry>)

  // ---- What the queries compute ----

  function GrossPaid(payments: seq<Payment>, cid: string): Amount {
    if payments == [] then 0.0
    else
      var p := payments[|payments| - 1];
      GrossPaid(payments[..|payments| - 1], cid) + if p.cotisation == cid && !p.deleted then p.amount else 0.0
  }

  function SumEntries(entries: seq<Entry>, cid: string, kind: Kind): Amount {
    if entries == [] then 0.0
    else
      var e := entries[|entries| - 1];
      SumEntries(entries[..|entries| - 1], cid, kind) + if e.cotisation == cid && e.kind == kind then e.amount else 0.0
  }

  /** A row of ListCotisations. */
  datatype CotisationResult = CotisationResult(
    id: string, unit: string, initialAmount: Amount, adjustment: Amount, grossPaid: Amount, refunded: Amount,
    amount: Amount, paid: Amount, remaining: Amount, paymentState: int)

  /** 4 overpaid, 1 settled, 2 at least half paid, 3 less than half. */
  function PaymentState(paid: Amount, called: Amount): int {
    if paid > called then 4 else if paid == called then 1 else if paid + paid >= called then 2 else 3
  }

  function RowOf(b: Books, c: Cotisation): CotisationResult {
    var adjustment, refunded := SumEntries(b.entries, c.id, Adjustment), SumEntries(b.entries, c.id, Refund);
    var gross := GrossPaid(b.payments, c.id);
    var called, paid := c.amount + adjustment, gross - refunded;
    CotisationResult(c.id, c.unit, c.amount, adjustment, gross, refunded, called, paid, called - paid, PaymentState(paid, called))
  }

  function Called(b: Books, c: Cotisation): Amount {
    RowOf(b, c).amount
  }

  function Paid(b: Books, c: Cotisation): Amount {
    RowOf(b, c).paid
  }

  function FindCotisation(rows: seq<Cotisation>, budget: string, cid: string): Option<Cotisation> {
    if rows == [] then None
    else if rows[0].budget == budget && rows[0].id == cid then Some(rows[0])
    else FindCotisation(rows[1..], budget, cid)
  }

  function EntriesOf(entries: seq<Entry>, cid: string): seq<Entry> {
    if entries == [] then []
    else (if entries[0].cotisation == cid then [entries[0]] else []) + EntriesOf(entries[1..], cid)
  }

  function PaymentsOf(payments: seq<Payment>, cid: string): seq<Payment> {
    if payments == [] then []
    else (if payments[0].cotisation == cid && !payments[0].deleted then [payments[0]] else []) + PaymentsOf(payments[1..], cid)
  }

  predicate Reversed(entries: seq<Entry>, id: string) {
    exists i :: 0 <= i < |entries| && entries[i].reverses == Some(id)
  }

  /** The last entry of that ID, as the loop over the rows leaves it. */
  function Original(entries: seq<Entry>, id: string): Option<Entry> {
    if entries == [] then None
    else if entries[|entries| - 1].id == id then Some(entries[|entries| - 1])
    else Original(entries[..|entries| - 1], id)
  }

  // ---- Text around the ledger ----

  /** The conversions of the environment: identifiers, dates, decimals, SHA-256. */
  datatype Codec = Codec(isUuid: string -> bool, isDate: string -> bool, trim: string -> string,
                         show: Amount -> string, hash: string -> string)

  predicate SlashFree(s: string) {
    '/' !in s
  }

  /** Identifiers, dates and decimals have no slash; decimals tell whole cents apart, and
      hashes their arguments. */
  ghost predicate Faithful(k: Codec) {
    && (forall s :: k.isUuid(s) ==> SlashFree(s))
    && (forall s :: k.isDate(s) ==> SlashFree(s))
    && (forall a :: WholeCents(a) ==> SlashFree(k.show(a)))
    && (forall a, b :: WholeCents(a) && WholeCents(b) && k.show(a) == k.show(b) ==> a == b)
    && (forall s, t :: k.hash(s) == k.hash(t) ==> s == t)
  }

  datatype Input = Input(id: string, kind: string, amount: Amount, date: string, reason: string,
                         reference: string, reverses: string, version: string)

  datatype Preview = Preview(calledBefore: Amount, calledAfter: Amount, paidBefore: Amount, paidAfter: Amount,
                             remainingAfter: Amount, version: string)

  datatype Effect = Effect(entry: Entry, preview: Preview)

  function KindName(kind: Kind): string {
    if kind.Refund? then "refund" else "adjustment"
  }

  /** Fields joined by slashes in front of the rest of a stamp. */
  function Joined(fields: seq<string>, rest: string): string {
    if fields == [] then rest else fields[0] + "/" + Joined(fields[1..], rest)
  }

  function InsertPayment(p: Payment, s: seq<Payment>): seq<Payment> {
    if s == [] || !Strings.Less(s[0].id, p.id) then [p] + s else [s[0]] + InsertPayment(p, s[1..])
  }

  function SortedById(s: seq<Payment>): seq<Payment> {
    if s == [] then [] else InsertPayment(s[0], SortedById(s[1..]))
  }

  function PaymentStamps(k: Codec, s: seq<Payment>): string {
    if s == [] then ""
    else PaymentStamps(k, s[..|s| - 1]) + "/" + s[|s| - 1].id + "/" + s[|s| - 1].updatedAt + "/" + k.show(s[|s| - 1].amount)
  }

  function EntryStamps(s: seq<Entry>): string {
    if s == [] then "" else EntryStamps(s[..|s| - 1]) + "/" + s[|s| - 1].id
  }

  /** The eight leading fields of a stamp, which contain no slash. */
  function StampFields(k: Codec, row: CotisationResult, e: Entry): seq<string> {
    [row.id, k.show(row.initialAmount), k.show(row.adjustment), k.show(row.grossPaid), k.show(row.refunded),
     KindName(e.kind), k.show(e.amount), e.date]
  }

  function StampRest(k: Codec, b: Books, cid: string, e: Entry, reverses: string): string {
    e.reason + "/" + e.reference + "/" + reverses
    + PaymentStamps(k, SortedById(PaymentsOf(b.payments, cid))) + EntryStamps(EntriesOf(b.entries, cid))
  }

  function Stamp(k: Codec, b: Books, row: CotisationResult, e: Entry, reverses: string): string {
    Joined(StampFields(k, row, e), StampRest(k, b, row.id, e, reverses))
  }

  // ---- financialEffect ----

  /** The entry that an input proposes, once budget and cotisation are known. */
  function Proposed(k: Codec, b: Books, row: CotisationResult, x: Input): Result<Entry> {
    var kind := if x.kind == "refund" then Refund else Adjustment;
    var e := Entry(x.id, row.id, kind, x.amount, x.date, k.trim(x.reason), k.trim(x.reference), None);
    if x.reverses != "" then
      var entries := EntriesOf(b.entries, row.id);
      if !k.isUuid(x.reverses) then Err("invalid operation to reverse")
      else if Reversed(entries, x.reverses) then Err("already reversed")
      else
        var original := Original(entries, x.reverses);
        if original.None? || original.value.reverses.Some? || original.value.kind != kind then Err("cannot be reversed here")
        else Ok(e.(amount := -original.value.amount, reverses := Some(x.reverses)))
    else if !ValidInput(if x.amount < 0.0 then -x.amount else x.amount) then Err("invalid amount")
    else if kind.Refund? && (x.amount <= 0.0 || x.amount > row.paid - row.amount) then Err("refund exceeds surplus")
    else Ok(e)
  }

  function PreviewOf(row: CotisationResult, e: Entry, version: string): Preview {
    var calledAfter := if e.kind.Adjustment? then row.amount + e.amount else row.amount;
    var paidAfter := if e.kind.Adjustment? then row.paid else row.paid - e.amount;
    Preview(row.amount, calledAfter, row.paid, paidAfter, calledAfter - paidAfter, version)
  }

  predicate TextAccepted(k: Codec, x: Input) {
    && k.isUuid(x.id)
    && (x.kind == "refund" || x.kind == "adjustment")
    && k.isDate(x.date)
    && 0 < Strings.Bytes(k.trim(x.reason)) <= 1000 && Strings.Bytes(x.reference) <= 200
  }

  function EffectOf(k: Codec, b: Books, budget: string, cid: string, x: Input): Result<Effect> {
    if !TextAccepted(k, x) then Err("invalid input")
    else if budget !in b.budgets then Err("budget not found")
    else if b.budgets[budget] then Err("budget is a draft")
    else
      var c := FindCotisation(b.cotisations, budget, cid);
      if c.None? || !k.isUuid(cid) then Err("cotisation not found")
      else
        var row := RowOf(b, c.value);
        var e := Proposed(k, b, row, x);
        if e.Err? then Err(e.message)
        else
          var p := PreviewOf(row, e.value, k.hash(Stamp(k, b, row, e.value, x.reverses)));
          if p.calledAfter < 0.0 || p.paidAfter < 0.0 then Err("negative amount") else Ok(Effect(e.value, p))
  }

  // ---- Transactions ----

  datatype Step =
    | Publish(budget: string, rows: seq<Cotisation>)
    | CreatePayment(budget: string, cid: string, p: Payment)
    | UpdatePayment(budget: string, cid: string, pid: string, amount: Amount, updatedAt: string)
    | DeletePayment(budget: string, cid: string, pid: string)
    | CreateEntry(budget: string, cid: string, x: Input)

  /** The live payment of that ID under that cotisation. */
  function FindPayment(payments: seq<Payment>, cid: string, pid: string): Option<nat> {
    if payments == [] then None
    else if payments[0].id == pid && payments[0].cotisation == cid && !payments[0].deleted then Some(0)
    else
      var r := FindPayment(payments[1..], cid, pid);
      if r.None? then None else Some(r.value + 1)
  }

  lemma {:induction false} FoundPayment(payments: seq<Payment>, cid: string, pid: string)
    ensures var r := FindPayment(payments, cid, pid);
            r.Some? ==> r.value < |payments| && payments[r.value].id == pid
                        && payments[r.value].cotisation == cid && !payments[r.value].deleted
  {
    if payments != [] {
      FoundPayment(payments[1..], cid, pid);
    }
  }

  /** GuardPaymentReduction: what stays paid must cover what was refunded. */
  predicate MayReduce(b: Books, cid: string, reduction: Amount) {
    GrossPaid(b.payments, cid) - reduction >= SumEntries(b.entries, cid, Refund)
  }

  predicate KnownId(entries: seq<Entry>, id: string) {
    exists i :: 0 <= i < |entries| && entries[i].id == id
  }

  /** The unique index on budget and unit. */
  predicate OnePerUnit(rows: seq<Cotisation>) {
    forall i, j :: 0 <= i < j < |rows| ==> rows[i].budget != rows[j].budget || rows[i].unit != rows[j].unit
  }

  /** The rows of a publication, as the database accepts them: of that budget, not
      negative and in cents, one per unit, with identifiers of their own. */
  predicate FreshRows(b: Books, budget: string, rows: seq<Cotisation>) {
    && (forall i :: 0 <= i < |rows| ==> rows[i].budget == budget && rows[i].amount >= 0.0 && WholeCents(rows[i].amount))
    && OnePerUnit(b.cotisations + rows)
    && (forall i, j :: 0 <= i < j < |rows| ==> rows[i].id != rows[j].id)
    && (forall i, j :: 0 <= i < |rows| && 0 <= j < |b.cotisations| ==> b.cotisations[j].id != rows[i].id)
    && (forall i, j :: 0 <= i < |rows| && 0 <= j < |b.payments| ==> b.payments[j].cotisation != rows[i].id)
    && (forall i, j :: 0 <= i < |rows| && 0 <= j < |b.entries| ==> b.entries[j].cotisation != rows[i].id)
  }

  /** What a transaction commits, or the error for which it is rolled back. */
  function Commit(k: Codec, b: Books, s: Step): Result<Books> {
    match s
    case Publish(budget, rows) =>
      if budget in b.budgets && !b.budgets[budget] then Err("already published")
      else if !FreshRows(b, budget, rows) then Err("constraint")
      else Ok(b.(budgets := b.budgets[budget := false], cotisations := b.cotisations + rows))
    case CreatePayment(budget, cid, p) =>
      if !ValidInput(p.amount) then Err("invalid amount")
      else if budget !in b.budgets || FindCotisation(b.cotisations, budget, cid).None? then Err("not found")
      else Ok(b.(payments := b.payments + [p.(cotisation := cid, deleted := false)]))
    case UpdatePayment(budget, cid, pid, amount, updatedAt) =>
      var i := FindPayment(b.payments, cid, pid);
      FoundPayment(b.payments, cid, pid);
      if !ValidInput(amount) then Err("invalid amount")
      else if budget !in b.budgets || FindCotisation(b.cotisations, budget, cid).None? || i.None? then Err("not found")
      else if !MayReduce(b, cid, b.payments[i.value].amount - amount) then Err("already refunded")
      else Ok(b.(payments := b.payments[i.value := b.payments[i.value].(amount := amount, updatedAt := updatedAt)]))
    case DeletePayment(budget, cid, pid) =>
      var i := FindPayment(b.payments, cid, pid);
      FoundPayment(b.payments, cid, pid);
      if budget !in b.budgets || FindCotisation(b.cotisations, budget, cid).None? || i.None? then Err("not found")
      else if !MayReduce(b, cid, b.payments[i.value].amount) then Err("already refunded")
      else Ok(b.(payments := b.payments[i.value := b.payments[i.value].(deleted := true)]))
    case CreateEntry(budget, cid, x) =>
      var e := EffectOf(k, b, budget, cid, x);
      if e.Err? then Err(e.message)
      else if x.version == "" || x.version != e.value.preview.version then Err("stale preview")
      else if KnownId(b.entries, x.id) then Err("already recorded")
      else Ok(b.(entries := b.entries + [e.value.entry]))
  }
}

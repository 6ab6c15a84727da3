# Verified model of the association back end

A Dafny 4.11 model of the hard parts of a back end that manages the budgets, payments,
e-mails and mailing lists of an owners' association, with proofs of what those parts
promise. `dafny verify dfyconfig.toml` checks everything.

## How it is organised

One module per component, each in the form of the code it models: where the code changes
things step by step there is a class or a method with loops, proved against a function
that says what it computes; what the code promises is then proved about that function,
for every input or over every run.

- **Template fields** — `TemplateSyntax` (parse trees), `FieldAnalysis` (the abstract
  interpretation, over finite alphabets that make it end), `FieldWalker` (its imperative
  form, with shared scopes), `FieldNotes` (what the walk finds, without its order and its
  visit keys), `TemplateEvaluator` (a reference evaluator with Go's variable stack and
  called templates), `TemplateIsolation` (trees that are handed no root), `FieldSoundness`
  and `FieldStatements` (soundness), `FieldLimits` (template sets outside the fragment that
  escape the analysis).
- **E-mail delivery** — `EmailStore` (the table and its conditional updates, the SMTP
  dialogue), `EmailDelivery` (all interleavings of senders, crashes, operators).
- **Money** — `Money`, `Allocation`, `AllocationProperties` (largest remainders),
  `Publication`, `BudgetHandlers`, `PublicationSafety`, `DraftEdits` (transactions under row
  and table locks), `Ledger`, `LedgerDatabase`, `LedgerSafety`, `LedgerOperations`, `LedgerVersions`
  (refunds, adjustments, reversals),
  `LedgerCodec` (a printing of amounts that meets the assumptions of `Ledger`), `Recovery` (dashboards and totals), `Campaign` (recipients of budget e-mails).
- **Mailing lists** — `MailingPlan`, `MailingProvider` (the asynchronous provider and a
  client over a lossy network), `MailingConvergence`, `MailingReading`, `MailingSync`,
  `MailingToken` (a token that meets the assumption of `MailingSync`).
- **Base64** — `Base64` (the pure text), `Base64Reader` (the streaming reader).
- **Locked protocols** — `Migrations`; `Administrators`, `UserHandlers` and
  `AdministratorsSafety` (admission, lock, sign-in in two transactions).
- `Wrappers`, `Sequences`, `Strings` hold what several modules share.

## How the outside world is represented

- **Database.** Tables are sequences or maps of rows; SQL aggregates are folds over rows.
  `FOR UPDATE`, `LOCK TABLE` and advisory locks are mutual exclusion. A transaction commits
  as a whole or leaves no trace. For e-mails, each statement commits on its own and may
  also commit and still report an error. For budgets, a transaction is cut at its lock
  operations, and other transactions act in between. Two rules of the schema are taken
  over: stored amounts are whole cents (pkg/db/migrations/0003_financial_input_guards.sql:3-19)
  and a budget has at most one cotisation for a unit
  (pkg/db/migrations/0002_unique_active_cotisations.sql:12).
- **Requests.** An account request is admitted by the middleware
  (server/server.go:123-141), waits, and is performed under the advisory lock. A sign-in
  resolves its account in one transaction and stores its session in another.
- **Network and time.** The mailing-list client takes an arbitrary function from the number
  of an exchange to what the network does to it (request lost, answer lost, answered) and
  to the set of provider tasks that are due by then. The SMTP server may accept a message
  at any moment after DATA began, whatever its sender does meanwhile.
- **Templates.** Functions and methods are an arbitrary function of their arguments; the
  only assumption (`Sane`) is that they do not return or hide the root map when it is not
  among their arguments, and that data values do not contain it. Templates call each other
  up to the depth at which text/template gives up.
- **Hashing.** SHA-256 is injective (`Faithful` in `Ledger`, `Injective` in `Migrations`,
  `TellsApart` in `MailingSync`, and only where a result names one of them), and printed
  amounts tell whole cents apart; `LedgerCodec.DecimalIsFaithful` and
  `MailingToken.WrittenTellsApart` exhibit functions that do so.
- **Addresses.** `Canonical` is any idempotent partial function from strings to strings.
- **Amounts** are exact reals, as in the decimal library; input validation makes accepted
  amounts whole cents (`Money.ValidInputIsCents`).
- **Sorting** by `sort.Slice` and `sort.Strings` is an insertion sort by the same order;
  `AllocationProperties` speaks of any ordering, so it does not depend on that choice.

## What the proofs found

- The description of a template set is complete for a fragment, templates that call each
  other included (`FieldStatements.DescriptionIsComplete`). Outside of it a key of the root
  can be read without being listed and without `advanced`: through `index` with one operand
  (pkg/templates/fields.go:55), a two-variable `range` with an `else` branch (lines
  159-180), a pipeline of two commands (lines 46-50), a method that is handed the root
  (lines 125-134 look at functions only), a reassignment inside a branch (lines 121-123
  write to the copied variables of line 26), and a template whose name holds a slash: a
  call of `n` with the context of key `x/` and a call of `n/x` with the root have the same
  visit key (lines 196-202), so that the second is never looked into. `FieldLimits` proves
  each of these for every key.
- The summary of a dashboard satisfies covered + remaining = called exactly when no counted
  lot has a negative minimum of called and paid (`Recovery.SummaryAddsUp`); the ledger
  guarantees that in every state it can reach (`Recovery.DashboardAddsUp`).
- When the provider shows no task for a list, its subscribers are those just read, because
  tasks are read before subscribers (`MailingReading.QuietReading`). The other order would
  not do: `MailingReading.ReverseOrderIsStale` is a run in which it shows no task and yet
  subscribers of the past.
- A request that was admitted before its author lost the role changes no account, because
  the author is read again under the lock: `AdministratorsSafety.ChangesAreAuthorised` says
  so of every run, and `AdministratorsSafety.RecheckMatters` is a run in which the same
  request, performed without that second reading, would give rights.
- A sign-in resolves its account in one transaction and stores its session in another
  (pkg/auth/oidc_login.go:125-145). When the account is deleted in between, a deleted
  account has a stored session (`AdministratorsSafety.SignInRace`). Over every run, that
  happens exactly when some sign-in stores its session after its account was deleted
  (`AdministratorsSafety.SessionsStayLiveIff`); no such session ever authenticates
  (`AdministratorsSafety.DeletedStaysOut`).

## Model

| member | source | states |
|---|---|---|
| FieldAnalysis.Walk | pkg/templates/fields.go:100-213 | the walk ends on every tree and every set of mutually recursive templates: unvisited visit keys, drawn from a finite alphabet, decrease lexicographically with the node; it never forgets a finding nor a visit, and keeps paths within the alphabet |
| FieldAnalysis.WalkCall | pkg/templates/fields.go:190-211 | a template call walks each visit key once, so that the set of unvisited keys shrinks although paths may grow; what that walk adds is `FieldNotes.CallIsSummary` |
| FieldAnalysis.RootReady | pkg/templates/fields.go:93-213 | the visit keys of all templates reachable from a parsed format come from a finite set fixed by the trees |
| FieldAnalysis.FieldPathWithin | pkg/templates/fields.go:32-76 | the first element of every path the analysis can compute is an identifier or key text of the templates |
| FieldAnalysis.PaddedIff | pkg/templates/fields.go:85-88 | a name is suspect exactly when trimming white space changes it |
| FieldNotes.CallIsSummary | pkg/templates/fields.go:190-211 | a call adds exactly what walking the called tree in its context adds, unless its key was visited; a template that is not there makes the description advanced |
| FieldNotes.WalkIsSummary | pkg/templates/fields.go:93-213 | for every tree and scope, the facts after the walk are those before plus the notes of the tree and of the expanded templates, in any order: names, complexity, `advanced`; each expansion answers a call, and each new visit key has exactly one |
| FieldNotes.DescriptionIsSummary | pkg/templates/fields.go:80-220 | for every list of formats: a name is a field exactly when some note reads it, it is complex exactly when some note says so, and the description is advanced exactly when there is a doubt |
| TemplateIsolation.NodeClean | pkg/templates/templates.go:32-47 | whatever the tree, the templates it calls and the depth: handed no root, it never looks anything up at the root and never raises its missing-key error |
| FieldWalker.FieldScope.Child | pkg/templates/fields.go:25-31 | a child scope has its own copy of the variables, so that writes in it do not reach the parent |
| FieldWalker.FieldDescriber.AddPath | pkg/templates/fields.go:84-92 | a finding is recorded, merged with what is known, or makes the description advanced |
| FieldWalker.FieldDescriber.Walk | pkg/templates/fields.go:101-212 | the mutating walk leaves exactly the facts and the variables of the specification, in the scope it was given and in no other |
| FieldWalker.FieldDescriber.WalkCommand | pkg/templates/fields.go:124-148 | calls that are handed the root make the description advanced, `index` and `get` record their operand and their path, then every argument is walked |
| FieldWalker.FieldDescriber.WalkBranch | pkg/templates/fields.go:154-189 | `if`, `range` and `with` use a local scope and leave the caller's variables as they were |
| FieldWalker.FieldDescriber.WalkTemplate | pkg/templates/fields.go:190-211 | the mutating form of a template call |
| FieldWalker.ListFields | pkg/templates/fields.go:215-219 | one field for each finding and no other, sorted by name |
| FieldWalker.DescribeFields | pkg/templates/fields.go:80-220 | total on every list of formats, parse errors included; every finding of the specification is a field, once, with its complexity, and the fields are sorted by name |
| FieldSoundness.FieldChainSound | pkg/templates/fields.go:37-45 | following names from a value whose abstract path is known looks up at most the first name at the root, and never yields the root itself once a name was followed |
| FieldSoundness.ArgSound | pkg/templates/fields.go:32-76 | once its notes are taken into account, the value of an argument agrees with its abstract path: a value whose path is unknown is never the root, and its root lookups are known |
| FieldSoundness.IndexCommandSound | pkg/templates/fields.go:55-67 | `index` and `get` with literal keys read at the root only what is noted |
| FieldSoundness.CommandSound | pkg/templates/fields.go:124-148 | the same for every command of the fragment, opaque functions and methods included |
| FieldSoundness.PipeSound | pkg/templates/fields.go:114-123 | the same for a pipeline, whose declared variable gets the path of its value |
| FieldStatements.RangeSound | pkg/templates/fields.go:159-180 | a loop keeps soundness over any number of elements, breaks and continues included |
| FieldStatements.NodeSound | pkg/templates/fields.go:101-212 | soundness for every statement of the fragment at every depth of calls, in any scope that matches the execution |
| FieldStatements.TemplateSound | pkg/templates/fields.go:190-211 | a call keeps soundness: handed the root, the called tree is covered by its own expansion; handed anything else, it cannot reach the root |
| FieldStatements.SetIsClosed | pkg/templates/fields.go:195-206 | without doubt and without slashes in names, every template that is called with the root has been expanded with the root, although one visit key stands for many paths |
| FieldStatements.DescriptionIsComplete | pkg/templates/fields.go:80-220 | for every template set of the fragment among any formats, and all data: unless advanced, every root key that the format or any template it calls looks up by name is a described field or automatic |
| FieldStatements.FilledFormNeverMissesRoot | pkg/templates/templates.go:32-47 | if all described and automatic keys are supplied, execution never raises the missing-key error at the root |
| FieldLimits.OneOperandIndexEscapes | pkg/templates/fields.go:55-67 | `index` with one operand: for every key and all data, the key is read at the root, not listed, and the description is not advanced |
| FieldLimits.TwoVariablesElseEscapes | pkg/templates/fields.go:159-180 | a two-variable range with `else`: likewise, for every key and all functions, on empty data |
| FieldLimits.PipedRootEscapes | pkg/templates/fields.go:46-50 | `{{(. | f).key}}`: likewise for every function that hands back what is piped into it, since the path of two commands is unknown and nothing warns of it |
| FieldLimits.MethodOfRootEscapes | pkg/templates/fields.go:124-134 | `{{(.o.m .).key}}`: likewise for every key, whenever the method hands back its argument |
| FieldLimits.NestedAssignmentEscapes | pkg/templates/fields.go:121-123 | a variable reassigned to the root inside a branch: likewise, for every key and all data |
| FieldLimits.SlashedNameEscapes | pkg/templates/fields.go:195-206 | two templates `n` and `n/x`: likewise for every key and all data, because their calls share a visit key |
| FieldLimits.OutsideTheFragment | pkg/templates/fields.go:55-67 | the five escaping trees lie outside the fragment of the soundness theorem |
| FieldLimits.SlashedNameOutside | pkg/templates/fields.go:195-206 | the escaping set is outside the fragment |
| FieldLimits.FragmentIsNeeded | pkg/templates/fields.go:32-212 | worlds that meet the assumption on functions in which all six, none of them in the fragment, escape |
| EmailStore.SendMessage | pkg/smtp/smtp.go:46-111 | the outcome is uncertain exactly when both acceptance and refusal are consistent with the dialogue; success and failure are reported only when the server's decision is known |
| EmailStore.EmailTable.Claim | controllers/emails.go:337-367 | the compare-and-set claim: exactly when it reports success a sendable row became claimed, whatever the database reports |
| EmailStore.EmailTable.SaveOutcome | controllers/emails.go:389-411 | only a claimed row is written, and a stored outcome is recorded as SENT exactly for a delivery, as ERROR exactly for a failure, as UNKNOWN exactly for an uncertain one; the fallback makes it UNKNOWN |
| EmailStore.EmailTable.MarkAsError | controllers/emails.go:413-430 | only sent, read or uncertain e-mails are reset, with subject and message cleared |
| EmailStore.EmailTable.MarkAsRead | controllers/emails.go:432-443 | only a sent e-mail becomes read |
| EmailStore.EmailTable.DeleteEmail | controllers/emails.go:320-333 | an e-mail being sent cannot be deleted |
| EmailDelivery.StepKeepsInvariant | controllers/emails.go:337-443 | the potential accepted + may yet be accepted or retried + sendable <= 1 + resets is kept by every step of every sender, crash, lost acknowledgement, ambiguous save and operator action |
| EmailDelivery.RunsFollowArrows | controllers/emails.go:320-443 | in every run a row changes only along the arrows of its life, each with its cause |
| EmailDelivery.AtMostOnceUnlessReset | controllers/emails.go:337-443 | in every run of any number of senders over all e-mails, SMTP acceptances of an e-mail never exceed 1 plus its resets |
| EmailDelivery.RetryIsSafe | controllers/emails.go:341-346 | an e-mail that is sendable and was never reset was not accepted, and no message of it can still be accepted |
| EmailDelivery.SentWasAccepted | controllers/emails.go:381-388 | an e-mail recorded as sent or read was accepted by the server |
| EmailDelivery.RecordTells | controllers/emails.go:381-411 | in every run, an e-mail without resets is sent or read exactly when an attempt recorded a delivery, which the server accepted; it is unknown once one recorded that; it is in error only if one recorded a failure, which the server did not accept |
| Money.ValidInputIsCents | pkg/money/amount.go:56-64 | accepted amounts are exactly the whole numbers of cents from 1 to 999 999 999 999, and converting to cents loses nothing |
| Money.HalvesGoAway | pkg/money/amount.go:56-64 | rounding takes halves away from zero on both sides |
| Allocation.TotalShares | controllers/allocation.go:14-29 | accepts exactly non-negative shares with a positive total within 64 bits, and never overflows on the way |
| Allocation.Divide | controllers/allocation.go:46-65 | the exact portions of the units with a share, in table order, and the cents left over |
| Allocation.Distribute | controllers/allocation.go:75-83 | the first portions of the order get the leftover cents |
| Allocation.LeftoverBounds | controllers/allocation.go:54-65 | the leftover cents are at least 0 and at most the number of non-zero remainders |
| Allocation.WinnersHaveRemainders | controllers/allocation.go:66-79 | only units with a non-zero remainder receive a leftover cent |
| Allocation.Allocate | controllers/allocation.go:38-84 | succeeds exactly on accepted amounts and shares, with a split by largest remainders |
| Allocation.BudgetPreview | controllers/allocation.go:86-103 | the preview is ready exactly when Allocate would succeed on the same amount and units |
| AllocationProperties.SplitIsExact | controllers/allocation.go:38-84 | the allocated amounts sum to the total, to the cent |
| AllocationProperties.SplitKeepsQuota | controllers/allocation.go:55-83 | every unit gets the floor or the ceiling of its exact quota, between 0 and the total, so that no conversion overflows |
| AllocationProperties.SplitServesPositiveShares | controllers/allocation.go:55-58 | the served units are exactly those with a positive share, each once |
| AllocationProperties.LargerShareNotLess | controllers/allocation.go:59-83 | a larger share never receives less |
| AllocationProperties.EqualSharesWithinOneCent | controllers/allocation.go:66-83 | equal shares differ by at most one cent, in favour of the lower unit number, then of the lower ID |
| AllocationProperties.LeftCentsGoByRank | controllers/allocation.go:66-83 | whatever the shares: a unit with a larger remainder than one that was rounded up, or with an equal one and a lower number, then ID, was rounded up too |
| Strings.LessIff | controllers/allocation.go:73-73 | IDs compare by their first differing character |
| AllocationProperties.SplitIsDeterministic | controllers/allocation.go:66-74 | the result is the same for every permutation of the units and every sort by the order, even when unit numbers coincide; the units only have distinct IDs, their primary key |
| AllocationProperties.SplitIsOptimal | controllers/allocation.go:36-84 | among all splits of the same total into whole cents over the served units, none has a smaller total distance to the exact quotas |
| AllocationProperties.PublishedNearPreview | controllers/allocation.go:86-96 | each published amount is within 0.01 + share * 0.0000005 of share times the announced annual rate |
| AllocationProperties.TwelveMonthsNearYear | controllers/allocation.go:94-96 | twelve monthly rates are within 0.000006 of the exact annual rate |
| PublicationSafety.StepKeepsGood | server/handlers/budget.go:59-464 | every step of every interleaving keeps the invariant: locks exclude each other, the amount a publication read stays the sum of the expenses, only published budgets have cotisations |
| PublicationSafety.PublishSettles | server/handlers/budget.go:244-262 | a publication writes cotisations that sum to the expenses, one per unit with a positive share |
| PublicationSafety.RunsAreGood | server/handlers/budget.go:59-464 | the invariant holds after every run |
| PublicationSafety.StepFreezesPublished | server/handlers/budget.go:128-464 | no handler changes the draft flag, the expenses or the base cotisations of a published budget, or deletes it |
| PublicationSafety.PublicationIsForever | server/handlers/budget.go:128-464 | over every run a published budget stays published with the same rows, and its cotisations sum to its expenses |
| PublicationSafety.OneCotisationEach | server/handlers/budget.go:244-262 | a published budget has exactly one cotisation for each unit that had a positive share at publication, and none for any other |
| PublicationSafety.EveryPublicationIsSettled | server/handlers/budget.go:59-464 | in every state reached from empty tables, the cotisations of a published budget sum to its expenses and each unit with a positive share has exactly one |
| PublicationSafety.PublishedFromPresentUnits | server/handlers/budget.go:233-262 | the units of a publication are those of the table when it commits, although they may have changed since the preview |
| DraftEdits.InsertDoes | server/handlers/budget.go:306-350 | a valid amount is added under a new ID and the total of that budget alone grows by it |
| DraftEdits.ChangeDoes | server/handlers/budget.go:363-410 | a valid amount replaces that of the row, which alone changes, and the total follows |
| DraftEdits.DropDoes | server/handlers/budget.go:422-464 | the row alone is marked as deleted and the total falls by its amount |
| DraftEdits.DeleteDoes | server/handlers/budget.go:128-176 | a draft without cotisations goes with its expenses, otherwise nothing changes |
| DraftEdits.PrepareDoes | server/handlers/budget.go:206-231 | the exact condition under which a publication goes on, and with which amount |
| DraftEdits.UnitDoes | server/handlers/units.go:65-150 | while no publication holds the table, a unit is added, replaced or removed and no other changes; meanwhile none does |
| BudgetHandlers.Tables.UpdateTitle | server/handlers/budget.go:83-117 | only the title is written |
| BudgetHandlers.Tables.LockDraftBudget | server/handlers/budget.go:876-904 | the row lock with the permission check: an enabled account and a draft |
| BudgetHandlers.Tables.CreateNewBudget | server/handlers/budget.go:59-70 | a new budget is a draft |
| BudgetHandlers.Tables.DeleteDraft | server/handlers/budget.go:128-176 | a draft without cotisations is deleted with its expenses |
| BudgetHandlers.Tables.InsertExpense | server/handlers/budget.go:306-350 | a valid amount is added to the locked draft |
| BudgetHandlers.Tables.ChangeExpense | server/handlers/budget.go:363-410 | a live expense of the locked draft gets a valid amount |
| BudgetHandlers.Tables.RemoveExpense | server/handlers/budget.go:422-464 | a live expense of the locked draft is deleted |
| BudgetHandlers.Tables.PreparePublication | server/handlers/budget.go:206-231 | goes on exactly when no cotisation exists, the total and every expense are valid, and the shares are accepted |
| BudgetHandlers.Tables.FreezeUnits | server/handlers/budget.go:233-242 | under the table lock the publication remembers the units as they are, in any order |
| BudgetHandlers.Tables.PublishFrozen | server/handlers/budget.go:244-278 | splits the amount over the frozen units, writes one cotisation each, and clears the draft flag, or changes nothing |
| LedgerDatabase.Database.ListCotisations | controllers/budgets.go:122-174 | called, paid, remaining and the payment state of each row, from payments and entries, or the error for an unknown budget |
| LedgerDatabase.Database.BuildStamp | controllers/financial.go:131-145 | the stamp grows by every payment in ID order, then by every entry |
| LedgerDatabase.Database.SearchOriginal | controllers/financial.go:99-107 | finds the entry to reverse unless some entry already reverses it |
| LedgerDatabase.Database.Propose | controllers/financial.go:90-120 | the entry with its amount: the negated original for a reversal, otherwise a valid amount, within the overpayment for a refund |
| LedgerDatabase.Database.FinancialEffect | controllers/financial.go:54-147 | the effect of a refund, an adjustment or a reversal, or its error |
| LedgerDatabase.Database.CreateFinancialEntry | controllers/financial.go:154-182 | the entry is appended when its version is current and its ID is new, otherwise nothing changes |
| LedgerDatabase.Database.CreatePayment | server/handlers/budget.go:511-561 | a valid payment of a published budget is added, otherwise nothing changes |
| LedgerDatabase.Database.UpdatePayment | server/handlers/budget.go:574-636 | a payment may shrink only by money that was not refunded |
| LedgerDatabase.Database.DeletePayment | server/handlers/budget.go:649-698 | a payment that financed a refund cannot be deleted |
| LedgerDatabase.Database.GuardPaymentReduction | controllers/financial.go:186-195 | what remains paid covers what was refunded |
| LedgerSafety.CommitKeepsGood | controllers/financial.go:54-195 | every committed transaction keeps called and net paid amounts non-negative and the entries well reversed |
| LedgerSafety.RefundedIsOpenRefunds | controllers/financial.go:95-119 | the total refunded is the sum of the original refunds that were not reversed, and not negative |
| LedgerSafety.LedgerIsSafe | controllers/financial.go:54-195 | over every run: non-negative called and paid amounts, refunds as above, each entry reversed at most once, no reversal of a reversal |
| LedgerOperations.PreviewIff | controllers/financial.go:54-147 | a preview is shown exactly for an accepted text, a cotisation of a published budget and a permitted operation: a refund within the surplus, an adjustment that leaves the call non-negative, the reversal of an open original |
| LedgerOperations.CommitsIff | controllers/financial.go:154-182 | an operation commits exactly when its preview would be shown now with that version and its ID is new |
| LedgerOperations.OperationDoes | controllers/financial.go:108-130 | a refund is positive and leaves at least the called amount paid, an adjustment changes the call, a reversal takes back what its original did; no other cotisation changes |
| LedgerOperations.EntryIsRecorded | controllers/financial.go:160-177 | one entry with the given identity, kind, date and target is appended, and nothing else changes |
| LedgerOperations.UpdatesIff | server/handlers/budget.go:574-636 | a payment changes exactly to a valid amount that leaves the net paid amount non-negative |
| LedgerOperations.DeletesIff | server/handlers/budget.go:649-698 | a payment is deleted exactly when the net paid amount stays non-negative |
| LedgerOperations.PaymentDoes | server/handlers/budget.go:511-698 | a payment changes what is paid by its amount, and nothing that is called |
| LedgerOperations.PublishesOnce | server/handlers/budget.go:187-280 | a budget is published once: its rows are added, and it is refused ever after |
| LedgerSafety.CommitKeepsExact | controllers/financial.go:54-195 | every transaction keeps stored amounts whole cents and the units of a budget distinct |
| LedgerSafety.RunsAreExact | controllers/financial.go:54-195 | so they are in every state of every run |
| LedgerSafety.JoinedIsInjective | controllers/financial.go:138-138 | the prefix of fields without separator decodes uniquely, although reason and reference may contain it |
| LedgerSafety.SameVersionSamePreview | controllers/financial.go:121-145 | where amounts are whole cents, equal versions announce equal amounts before and after |
| LedgerVersions.SameVersionSameRows | controllers/financial.go:133-145 | one input with one version on two states: the cotisation has the same payments, with the same times and amounts, and the same entries |
| LedgerSafety.RowAfterEntry | controllers/financial.go:121-130 | once an entry is recorded, ListCotisations computes exactly the previewed called, paid and remaining amounts |
| LedgerSafety.RecordedAsPreviewed | controllers/financial.go:160-177 | where amounts are whole cents, a confirmed operation leaves exactly what its preview announced, whatever happened in between |
| LedgerSafety.RunsRecordAsPreviewed | controllers/financial.go:154-182 | in every run, an operation confirmed in one state with the version of a preview made in another leaves exactly what was announced |
| LedgerCodec.ShowTellsApart | controllers/financial.go:138-141 | amounts in whole cents with equal decimal texts are equal |
| LedgerCodec.DecimalIsFaithful | controllers/financial.go:138-141 | decimal texts meet what the ledger assumes of the printing of amounts |
| Recovery.SummarizeRecovery | controllers/dashboard.go:78-118 | every column is a sum or a count over the first row of each unit |
| Recovery.FirstRowsCount | controllers/dashboard.go:80-85 | every unit counts exactly once, by its first row |
| Recovery.LotIsOne | controllers/dashboard.go:90-104 | settled, overpaid, partial and unpaid in terms of the payment state that is displayed |
| Recovery.SummaryAddsUp | controllers/dashboard.go:78-118 | called - paid = remaining - surplus, lots = settled + partial + unpaid; covered + remaining = called exactly when every counted row is sound, and then the rate is within 0..100 |
| Recovery.RateInRange | controllers/dashboard.go:113-116 | rounding keeps the rate within 0..100 |
| Recovery.RateIsNearest | controllers/dashboard.go:113-116 | the rate is in hundredths and within 0.005 + 5e-15 of the exact percentage |
| Recovery.GetBudgetTotals | controllers/financial.go:197-226 | the totals as computed by separate queries over payments and over cotisations |
| Recovery.JoinIsSumOfRows | controllers/budgets.go:57-68 | joining payments to cotisations sums the payments of each cotisation once |
| Recovery.TotalsAreSumsOfRows | controllers/financial.go:197-226 | called, paid, adjustment, refunded and gross totals equal the sums over ListCotisations |
| Recovery.DashboardAgreesWithBudget | controllers/dashboard.go:78-118 | in every reachable state of the ledger the dashboard and the budget show the same called, net paid and refunded amounts, and every cotisation is a lot |
| Recovery.DashboardAddsUp | controllers/dashboard.go:78-118 | in every reachable state of the ledger the dashboard adds up and its rate is within 0..100 |
| Campaign.Include | controllers/budgets.go:336-341 | the filter in terms of the displayed payment state: less than half always, at least half on request, settled or overpaid on request |
| Campaign.FilterCotisations | controllers/budgets.go:412-431 | the rows of a member, in list order |
| Campaign.FilterAfterwards | controllers/budgets.go:232-241 | filtering by member and then by state is filtering by both |
| Campaign.PreviewBudgetEmail | controllers/budgets.go:212-264 | what the preview of one member shows, or why there is none |
| Campaign.GroupRecipients | controllers/budgets.go:289-304 | every member with an address and a selected row has one group with exactly those rows in order |
| Campaign.SendBudgetEmail | controllers/budgets.go:266-334 | exactly the members whose filtered preview is accepted get exactly one e-mail, with the content of that preview; if one recipient's template fails nothing is created |
| Base64.DecodeEncode | pkg/smtp/encodings.go:69-78 | decoding the encoding of any body gives it back (section 4 of RFC 4648) |
| Base64.StandardAlphabet | pkg/smtp/encodings.go:69-78 | the alphabet of Table 1 of RFC 4648 |
| Base64.QuadBits | pkg/smtp/encodings.go:69-78 | four symbols carry the 24 bits of three bytes in order |
| Base64.EncodeShape | pkg/smtp/encodings.go:69-78 | the length, and the padding of the last group |
| Base64.TextReadsBack | pkg/smtp/encodings.go:47-88 | for every line end, cutting the text every 76 characters gives the body back |
| Base64.TextByPosition | pkg/smtp/encodings.go:47-88 | a line end follows each 76 characters, the last ones included: the place of every character and the length |
| Base64.TextIsMail | pkg/smtp/encodings.go:47-88 | with CRLF or any line end outside the alphabet, no line exceeds 76 characters, and the text without line ends decodes to the body (section 6.8 of RFC 2045) |
| Base64Reader.Reader.Read | pkg/smtp/encodings.go:47-88 | for every buffer size, including those that cut a line end, the buffer gets the next characters of a pure text of the body; EOF is reported exactly when fewer were left than asked for, and never for a body that failed |
| Base64Reader.Drain | pkg/smtp/encodings.go:47-88 | the chunks concatenate to a prefix of one text whatever their sizes; EOF or the error of the body comes once the sizes exceed it |
| Base64Reader.ReadWhole | pkg/smtp/encodings.go:47-88 | every long enough sequence of positive sizes reaches EOF and yields the whole text; for a body that fails it ends in the error, after text of whole groups only |
| MailingPlan.BuildPlan | pkg/mailings/plan.go:55-124 | for both lists: expected addresses without repetition, those to add and the subscribers to remove, sorted; the invalid members with their reasons; when the plan may be applied; and the token over all of it, the members and the configuration |
| MailingPlan.Addresses | pkg/mailings/plan.go:58-69 | the normal forms expected on each list, and the members without one |
| MailingPlan.BuildListPlan | pkg/mailings/plan.go:71-104 | the plan of one list |
| MailingPlan.Applicable | pkg/mailings/plan.go:105-113 | a plan may be applied exactly when nobody is invalid, no task is outstanding and there is something to do |
| MailingPlan.AddsAreNotRemoved | pkg/mailings/plan.go:82-98 | adds and removes of a plan are disjoint |
| MailingPlan.SubscribedAfter | pkg/mailings/plan.go:82-98 | who is subscribed after some planned operations depends only on which ones ran, not on their order |
| MailingPlan.FullRunIsInSync | pkg/mailings/plan.go:55-124 | after all operations of a plan, in any order, the next plan is empty |
| MailingPlan.PartialRunConverges | pkg/mailings/plan.go:55-124 | after any of them, the next plan is contained in the old one and no expected subscriber was dropped |
| MailingPlan.EmptyPlanIsInSync | pkg/mailings/plan.go:82-98 | a plan is empty exactly when the normal forms of the subscribers are the expected addresses and all have one |
| MailingProvider.Fixture.CompleteDue | dev/ovh-fixture/main.go:46-58 | the due tasks run in queue order and leave the queue, the others stay |
| MailingProvider.LastTaskDecides | dev/ovh-fixture/main.go:46-58 | after due tasks ran, the last one about an address decides whether it is subscribed |
| MailingProvider.NobodyTwice | dev/ovh-fixture/main.go:46-58 | no task subscribes an address twice |
| MailingProvider.Fixture.ListTasks | dev/ovh-fixture/main.go:60-74 | the numbers of the outstanding tasks of a known list |
| MailingProvider.Fixture.ListSubscribers | dev/ovh-fixture/main.go:81-91 | the subscribers of a known list, sorted |
| MailingProvider.Fixture.Enqueue | dev/ovh-fixture/main.go:92-112 | an accepted request appends one task with the next number, a refused one nothing |
| MailingProvider.Client.Send | pkg/mailings/client.go:38-45 | an operation seen as accepted was accepted; one seen as failed may have been |
| MailingProvider.Client.Pending | pkg/mailings/client.go:47-53 | an answered request shows the outstanding tasks of the list at that moment |
| MailingProvider.Client.Subscribers | pkg/mailings/client.go:33-37 | an answered request shows the subscribers at that moment |
| MailingConvergence.SettleKeepsProgress | dev/ovh-fixture/main.go:46-58 | whichever tasks are due by a request, completing them only brings a list nearer to its plan |
| MailingConvergence.ReceivedKeepsProgress | dev/ovh-fixture/main.go:108-111 | so does enqueueing an operation of the plan |
| MailingConvergence.ProgressOnlyShrinksPlans | pkg/mailings/plan.go:55-124 | at any later moment, tasks outstanding or not, a new plan adds and removes nothing new, and every expected subscriber is still there |
| MailingConvergence.AcceptedPlanLands | controllers/mailings.go:102-128 | once a wholly accepted plan has no task left, a new plan is empty |
| MailingReading.ReadPlan | controllers/mailings.go:18-41 | succeeds exactly when the members are read and all four requests are answered about known lists; the plan is then built from what they showed, in their order |
| MailingReading.PreviewMailingLists | controllers/mailings.go:42-57 | an unconfigured provider gives an empty plan without any request; otherwise the preview is a reading with its token, and fails exactly when the reading does |
| MailingReading.QuietReading | controllers/mailings.go:29-39 | a reading without tasks shows the subscribers as they are when the reading ends, because tasks are read first |
| MailingReading.ReverseOrderIsStale | controllers/mailings.go:29-39 | a run in which reading subscribers before tasks shows no task and subscribers of the past |
| MailingReading.MailingVerified | controllers/mailings.go:58-68 | true exactly when nobody is invalid and nothing is to be added, removed or awaited |
| MailingReading.VerifiedIff | controllers/mailings.go:58-68 | for every reading, verified exactly when it showed no task, exactly the expected addresses on both lists, and an address of every member |
| MailingReading.NothingToDoIsInSync | controllers/mailings.go:58-68 | then no task is outstanding and the subscribers of both lists are exactly the expected addresses |
| MailingSync.SendEach | controllers/mailings.go:105-127 | one loop: requests in order, stopping at the first failure |
| MailingSync.SendPlan | controllers/mailings.go:102-128 | adds of both lists, then removes of both, stopping at the first failure, with progress kept on both lists |
| MailingSync.RemovesComeLast | controllers/mailings.go:102-128 | no remove is sent before every add of both lists was accepted |
| MailingSync.AllAccepted | controllers/mailings.go:102-128 | a run without failure had every operation accepted |
| MailingSync.SyncMailingLists | controllers/mailings.go:69-150 | goes on exactly when the plan could be read, has the reviewed token and may be applied; an error sends nothing; a result shows the second reading exactly when it could be made and the transaction committed, is verified exactly when that reading showed both lists as expected without tasks, and then they are; otherwise it is partial as reported |
| MailingSync.AppliedIsReviewed | controllers/mailings.go:92-101 | a plan with the token of a preview is the previewed plan, for the same members and the same configuration, so that the requests to send are those reviewed |
| MailingToken.WrittenTellsApart | pkg/mailings/plan.go:114-122 | writing out the plan, the members and the configuration tells different ones apart |
| MailingSync.LaterPlansShrink | controllers/mailings.go:69-150 | after any run, complete or stopped, every later plan for the same members is contained in the reviewed one, and empty after a complete run without tasks left |
| Migrations.CheckHistory | pkg/db/migrations.go:87-97 | the ledger must be a prefix of the records of the list |
| Migrations.AcceptedIsPrefix | pkg/db/migrations.go:87-97 | a ledger is accepted exactly when the recorded migrations, scripts included, are a prefix of the list |
| Migrations.Database.RunPending | pkg/db/migrations.go:190-197 | the loop succeeds exactly when every script and every record does, and yields the schema after all scripts |
| Migrations.Database.ApplyMigrations | pkg/db/migrations.go:166-200 | one transaction runs and records exactly the missing scripts in order, or changes nothing |
| Migrations.Database.BaselineSchema | pkg/db/migrations.go:204-232 | records the first migration of an equivalent schema without running it, only when nothing is recorded |
| Migrations.MigrateKeepsGood | pkg/db/migrations.go:166-200 | an attempt brings the ledger to the whole list or changes nothing |
| Migrations.MigratesIff | pkg/db/migrations.go:166-200 | when nothing fails around it, an attempt brings the ledger to its list exactly when the ledger is a prefix, no legacy table stands without a ledger, and the missing scripts run |
| Migrations.AdoptKeepsGood | pkg/db/migrations.go:204-232 | a baseline keeps the schema and the scripts that ran |
| Migrations.AdoptsIff | pkg/db/migrations.go:204-232 | when nothing fails around it, a baseline takes effect exactly on an empty ledger and an equivalent schema |
| Migrations.LedgerIsOrdered | pkg/db/migrations.go:87-232 | over every run of attempts with any lists and failures: the ledger only grows, each recorded script ran exactly once and in order (the first may be adopted), and the schema is the result of exactly those scripts |
| Migrations.LedgerTellsSchema | pkg/db/migrations.go:87-232 | from a new database, over every run: the rows are the records of the migrations in order, and the schema is what their scripts make of the first one, possibly without that of a first migration whose schema was already there |
| Migrations.LegacyIsOnlyAdopted | pkg/db/migrations.go:178-186 | over every run, a database with legacy tables and no ledger stays as it is until an equivalent schema is adopted |
| AdministratorsSafety.GuardIsExact | server/auth/user_administration.go:35-47 | the guard refuses exactly the writes that would leave no active administrator |
| AdministratorsSafety.StepKeepsAdministrator | server/auth/user_administration.go:18-47 | no step of requests, sign-ups, sign-ins and logouts leaves none |
| AdministratorsSafety.AdministratorRemains | server/auth/user_administration.go:18-47 | once an active administrator exists, no run leaves none |
| AdministratorsSafety.OnlyAdministratorsWrite | server/auth/user_administration.go:18-33 | a step that changes an account, or makes an active administrator, performs an admitted request whose actor is an active administrator at that moment |
| AdministratorsSafety.EveryRequestWasAdmitted | server/auth/auth.go:30-91 | over every run a waiting request was admitted for a session whose account was an active administrator then |
| AdministratorsSafety.ChangesAreAuthorised | server/auth/user_administration.go:18-33 | over every run accounts change, or rights appear, only by a request that was admitted for an active administrator and whose actor still is one when it is performed |
| AdministratorsSafety.RecheckMatters | server/auth/user_administration.go:18-33 | a run of two administrators after which the waiting request of the demoted one changes nothing, but would make a third account an administrator without the second reading |
| AdministratorsSafety.AccessAgrees | server/auth/user_administration.go:65-88 | over every run an account with a request is enabled exactly when the request is approved |
| AdministratorsSafety.DecisionIff | server/auth/user_administration.go:109-125 | a decision is accepted exactly when its update turns the displayed access as it should |
| AdministratorsSafety.StoreKeepsIff | pkg/auth/oidc_login.go:125-145 | storing a session keeps sessions to existing accounts if and only if the account of the sign-in still exists |
| AdministratorsSafety.SessionsStayLiveIff | pkg/auth/oidc_login.go:125-145 | over every run no state has a session of a deleted account if and only if every stored session found its account existing |
| AdministratorsSafety.SignInRace | pkg/auth/oidc_login.go:125-145 | the run in which a deleted account gets a stored session, which does not authenticate |
| AdministratorsSafety.DeletedStaysOut | pkg/auth/oidc_session.go:60-93 | over every run a deleted account stays deleted and none of its sessions authenticates, later ones included |
| UserHandlers.Accounts.FindAccount | pkg/auth/oidc_session.go:60-93 | a session authenticates only while its account exists |
| UserHandlers.Accounts.ResolveSignIn | pkg/auth/oidc_login.go:125-129 | the first transaction of a sign-in finds a linked account that exists |
| UserHandlers.Accounts.StoreNewSession | pkg/auth/oidc_login.go:137-145 | the second transaction replaces the former session and reads no account |
| UserHandlers.Accounts.AdmitRequest | server/auth/auth.go:30-91 | the middleware admits a request exactly when its session belongs to an enabled administrator |
| UserHandlers.Accounts.ProtectLastAdministrator | server/auth/user_administration.go:35-47 | accepts exactly when the guard of the specification does |
| UserHandlers.Accounts.CheckActor | server/auth/user_administration.go:18-33 | the actor is an enabled administrator in the stored rows |
| UserHandlers.Accounts.ValidateUserInput | server/auth/user_administration.go:49-63 | a trimmed name of 1 to 320 bytes in UTF-8, and actions that are known or already held |
| UserHandlers.Accounts.ResolveAccess | server/auth/user_administration.go:65-82 | the request follows the account |
| UserHandlers.Accounts.RevokeDisabledSessions | server/auth/user_administration.go:83-88 | a disabled account loses its sessions and no other account does |
| UserHandlers.Accounts.ValidateAccessDecision | server/auth/user_administration.go:109-125 | which decisions fit the state of the account |
| UserHandlers.Accounts.CreateUser | server/auth/auth.go:211-230 | the account is created by an active administrator with accepted input, otherwise nothing changes |
| UserHandlers.Accounts.StoreUpdate | server/auth/auth.go:268-278 | what an update writes: the row, then the request and the sessions |
| UserHandlers.Accounts.UpdateUser | server/auth/auth.go:241-287 | all checks in order, then the row, the request and the sessions, otherwise nothing changes; disabling or rejecting ends the sessions of the account and no other |
| UserHandlers.Accounts.DeleteUser | server/auth/auth.go:294-311 | the account is soft-deleted and its sessions end, otherwise nothing changes |
| UserHandlers.Accounts.Handle | server/auth/user_administration.go:18-33 | an admitted request has the effect of the specification, and succeeds only if its actor is still an active administrator |

## Left out

- FieldStatements.DescriptionIsComplete: leaves out pipelines of several commands, reassignment with `=`, one-operand `index`, a two-variable `range` with `else`, methods whose arguments may be the root and names with a slash, of each of which `FieldLimits` proves that keys can escape; and declarations inside a parenthesis or a template call, of which no claim is made.
- FieldLimits.TwoVariablesElseEscapes: is stated for empty data, the only data on which the loop takes its alternative.
- FieldWalker.DescribeFields: makes no claim that the `complex` flag is high enough, which functions such as `or` can make too low.
- Base64.TextIsMail: requires a line end outside the base64 alphabet, as any mail line end is; `TextReadsBack` covers every line end.
- EmailStore.SendMessage: TLS, AUTH, MAIL, RCPT and DATA are a list of exchanges, and a deadline is a broken exchange.
- MailingProvider.Client.Send: a request reaches the provider during its own exchange or never; one that is delivered after the client gave up on it is not represented.
- LedgerSafety.RunsRecordAsPreviewed: runs start with drafts only; amounts with fractions of a cent that older versions may have stored are outside of it.
- MailingSync.SyncMailingLists: the messages for the user are reduced to the verified and partial flags; the time limits appear as lost requests.
- Campaign.SendBudgetEmail: the rendering is an arbitrary predicate of the member and the rows, shared by preview and campaign; the campaign row and the attachments are not modelled.
- Migrations.Database.ApplyMigrations: the SQL of a script is an arbitrary partial function on schemas, and `normalizeBaselineSignature` is an arbitrary predicate on schemas.
- UserHandlers.Accounts.UpdateUser: that a user name is unique is part of whether the database stores the write.
- `multipartReader.Read`: it can report EOF while its buffer still holds boundary bytes, so that chunk independence does not hold of it.
- `qprintableReader.Read`, header order, HTML rendering: library behaviour that is not visible.
- Validation of UUIDs, dates and JSON numbers: plumbing in front of the modelled operations.
- Cookies, CSRF tokens, expiry of sessions and the identity provider: a session is its token and its account.
- Pagination, attachment limits, directory counters and the monthly table of the dashboard: easy members.

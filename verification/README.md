# SquiFlow rules and stores, modelled and proved in Dafny

SquiFlow is a modular monolith whose business rules are deterministic and host-neutral. This
project models its hardest rules and stores and proves what they promise over every input,
every run and every reachable state. All files are verified together with
`dafny verify dfyconfig.toml`.

| modules | what they model |
|---|---|
| `Purchasing*` | the purchase ledger: receipts, payments of receipts, refunds of payments, cancellation and corrections; what each call does is spelled out in `PurchasingMeaning`, and likewise in the other `...Meaning` modules |
| `Fulfillment*` | the fulfillment snapshot against its append-only event log, and the store that writes both |
| `FeatureGraph`, `FeatureCatalog` | the feature compiler: topological sort with cycle reports, dependency closure |
| `Csv`, `Levenshtein` | the customer import's CSV scanner and the duplicate matcher's edit distance |
| `Decimals`, `Conversion`, `Selling`, `Invoices` | the platform decimal, unit conversion, selling amounts, issued invoice lines |
| `Settlement*` | customer payments, allocations and receivables over one event table |
| `ProfileText`, `Profile*` | the tenant profile authority store with its idempotency receipts |
| `Pricing`, `Orders`, `CommitGuard*`, `Quotations` | price selection, the guard before an order commits, quotations that become orders |

Conventions. Identities are opaque values with one empty identity. Where only the value of a
decimal matters it is an integer in units of 10^-28; where its representation matters (`Decimals`)
it is a coefficient below 2^96 with a scale of at most 28. Times are integers in ticks. Request
fingerprints are compared as the canonical texts that the source hashes. A C# exception is a
constructor of the result type (`Faulted`, `Fault`, `Crash`, `Refused`, `None`, ...). Size limits on serialised
JSON are arbitrary predicates, Unicode composition and upper-casing arbitrary functions
(upper-cased text holding no lower-case ASCII letter; where it matters, composing a trimmed text leaves it
trimmed).

## Findings

Proving the intended laws on all inputs showed a few places where the code does something its
comments or documents do not say. The code is modelled as it is; each has a lemma with the
exact condition.

* `ReadCorrectionTargetAsync` raises the integrity exception in a healthy store when a request
  names an already voided resolution whose disposition has been voided as well
  (`FulfillmentReplay.TargetReadFailsExactlyWhen`, witness
  `FulfillmentTheorems.CorrectingVoidedResolutionFaults`).
* The commit guard's comment says that not reading elevated authority can only turn the outcome
  into a rejection. It accepts exactly the same orders, but when no request can carry a retained
  override (its reason holds a control character, which the check of commercial facts lets pass) and the
  current policy has unsupported semantics, the lazy guard throws where the eager one answers false
  (`CommitGuard.LazyAuthorityIsExactUnless`, witness `CommitGuard.GuardsCanDiffer`). Today's writers do not
  get there: overrides made by the engine are always well formed (`CommitGuard.EngineOverridesJudgeAlike`),
  and the pricing store reads current policies with the supported version
  (`CommitGuard.SupportedPoliciesJudgeAlike`).
* A profile receipt written while the clock reads the default instant cannot be replayed: its time is
  checked when it is read but not when it is written (`ProfileTheorems.RepeatReturnsOriginal`, witness
  `ProfileTheorems.ReceiptOfDefaultInstantFaults`).
* The CSV limits are read before each code unit and compared with more than nine finished fields, so every
  line may hold ten fields (`Csv.TenFieldsFit`). What ends the text escapes by one more: a bare last field may
  have 4097 units (`Csv.LastFieldEscapesByOne`), a final comma opens an eleventh field
  (`Csv.FinalCommaAddsField`), and an unterminated last row may be the 10,002nd (`Csv.LastRowEscapesByOne`).
  The exact grammar is `Csv.ParseAcceptsExactlyDocuments`.
* The 10,000-event ceiling of a payment never binds: no reachable payment exceeds 9,999 events
  (`SettlementTheorems.EveryRunIsSound`).

## Model

| member | source | states |
|---|---|---|
| `PurchasingHistory.EveryAppliedStepIsValid` | modules/purchasing/Application.Purchasing/PurchasingRules.cs:142-301 | every accepted call, corrections included and with nothing assumed of its input, yields a snapshot that passes the whole validator |
| `PurchasingHistory.EveryRunIsSound` | modules/purchasing/Application.Purchasing/PurchasingRules.cs:142-301 | after every run the snapshot is valid, and folding the emitted events, each read alone, rebuilds its receipts, payments, refunds, void flags, effective identities, cancelled quantity and revision |
| `PurchasingHistory.EventsAreAppendOnly` | modules/purchasing/Application.Purchasing/PurchasingRules.cs:142-212 | a longer run only appends to the events of a shorter one |
| `PurchasingHistory.EventsValidForever` | modules/purchasing/Application.Purchasing/PurchasingRules.cs:361-385 | an event emitted by any call satisfies the event validator against the snapshot after every later call |
| `PurchasingMeaning.ValidEventExactly` | modules/purchasing/Application.Purchasing/PurchasingRules.cs:361-385 | an event is valid against a snapshot exactly when it has its kind's form, spelled out, and a place in the snapshot's history |
| `PurchasingHistory.StepReplays` | modules/purchasing/Application.Purchasing/PurchasingRules.cs:142-301 | replaying the one emitted event on the ledgers before a step gives the ledgers after it |
| `PurchasingHistory.StepEventValid` | modules/purchasing/Application.Purchasing/PurchasingRules.cs:361-385 | the event of every accepted command is valid against the snapshot it produced |
| `PurchasingSteps.CorrectionChangesOneFact` | modules/purchasing/Application.Purchasing/PurchasingRules.cs:235-301 | a correction replaces or voids exactly the one active fact it names and leaves the other two ledgers alone |
| `PurchasingMeaning.CallCarriedOutExactly` | modules/purchasing/Application.Purchasing/PurchasingRules.cs:142-301 | a later call yields a given snapshot and event if and only if it is admissible, the ledgers allow it, and these are, field by field, what was asked: one appended fact, the cancelled remainder, or one corrected fact, with the header stamped |
| `PurchasingMeaning.RequestCarriedOutExactly` | modules/purchasing/Application.Purchasing/PurchasingRules.cs:214-233 | a first call yields a given purchase and event if and only if it may open one and these are what it asks for |
| `PurchasingMeaning.AcceptedCorrectionWritten` | modules/purchasing/Application.Purchasing/PurchasingRules.cs:235-301 | an accepted correction gives the fact it names the replacement's quantity, amount, method and reference, keeping entry and parent, or voids it with its figures kept; nothing else changes |
| `PurchasingMeaning.CanonicalExactly` | modules/purchasing/Application.Purchasing/PurchasingRules.cs:53-67 | canonicalising a command trims its texts and touches nothing else, and fails exactly when one does not fit |
| `Texts.TrimMeaning` | modules/purchasing/Application.Purchasing/PurchasingRules.cs:488-501 | trimming cuts white space from both ends and nothing else |
| `PurchasingSteps.CorrectingSound` | modules/purchasing/Application.Purchasing/PurchasingRules.cs:235-301 | an accepted correction keeps identities unique, references intact and every balance non-negative |
| `PurchasingSteps.AppendPaymentFinances` | modules/purchasing/Application.Purchasing/PurchasingRules.cs:175-186 | a payment within the receipt's outstanding amount keeps every reference and balance |
| `PurchasingSteps.AppendRefundFinances` | modules/purchasing/Application.Purchasing/PurchasingRules.cs:187-198 | a refund within what is left of a payment keeps every reference and balance |
| `PurchasingSteps.CancellingSound` | modules/purchasing/Application.Purchasing/PurchasingRules.cs:201-206 | cancelling the remainder keeps the snapshot sound |
| `PurchasingHistory.CreationSound` | modules/purchasing/Application.Purchasing/PurchasingRules.cs:214-233 | an accepted request starts a purchase that passes the validator |
| `Purchasing.UniqueEntries` | modules/purchasing/Application.Purchasing/PurchasingRules.cs:142-212 | no lookup by entry identity can see two matches in a snapshot with valid identities |
| `Purchasing.UniqueEffects` | modules/purchasing/Application.Purchasing/PurchasingRules.cs:235-301 | no lookup by effective identity can see two matches |
| `PurchasingAccounts.PayableIsSumOfOutstanding` | modules/purchasing/Application.Purchasing/PurchasingContracts.cs:73-80 | in every valid snapshot the global payable is the sum of the per-receipt outstanding amounts and lies between zero and the total cost |
| `PurchasingAccounts.ReturnsAddUp` | modules/purchasing/Application.Purchasing/PurchasingRules.cs:387-396 | refunds summed payment by payment are the refunded total |
| `PurchasingValidation.IsValidSnapshot` | modules/purchasing/Application.Purchasing/PurchasingRules.cs:327-359 | the loops over two growing identity sets accept exactly the snapshots with distinct identities, well-formed facts, intact references and non-negative balances |
| `PurchasingValidation.ValidFinancialProjection` | modules/purchasing/Application.Purchasing/PurchasingRules.cs:397-411 | the loops with their single-match lookups accept exactly the financially valid ledgers |
| `Texts.NormalizeIdempotent` | modules/purchasing/Application.Purchasing/PurchasingRules.cs:488-501 | normalised text is canonical: normalising it again returns it |
| `FulfillmentMeaning.CommandCarriedOutExactly` | modules/fulfillment/Application.Fulfillment/FulfillmentRules.cs:34-227 | a command yields a given snapshot and event if and only if it is admissible, the work allows it, and these are, field by field, what was asked: the quantity, trimmed texts, disposition, target and replacement of the command, and nothing else moved |
| `FulfillmentReplay.TargetReadExactly` | modules/fulfillment/Application.Fulfillment.Postgres/PostgresFulfillmentStore.cs:185-232 | what is read for a correction is the entry it names as it stands in the log, with its active dependents and the active disposition a resolution closed |
| `FulfillmentReplay.ApplyKeepsAgreement` | modules/fulfillment/Application.Fulfillment/FulfillmentRules.cs:34-227 | every accepted command with a fresh event identity keeps the snapshot equal to a replay of its log |
| `FulfillmentReplay.CreationAgrees` | modules/fulfillment/Application.Fulfillment/FulfillmentRules.cs:34-146 | the first accepted command yields a snapshot equal to a replay of its one event |
| `FulfillmentReplay.CorrectionStep` | modules/fulfillment/Application.Fulfillment/FulfillmentRules.cs:148-227 | an accepted correction voids one entry, may count in its place, and keeps totals, dispositions and resolutions in agreement with the log |
| `FulfillmentReplay.ReopeningStep` | modules/fulfillment/Application.Fulfillment/FulfillmentRules.cs:148-227 | voiding a resolution while nothing is open reopens exactly the disposition it had closed |
| `FulfillmentReplay.TargetReadFailsExactlyWhen` | modules/fulfillment/Application.Fulfillment.Postgres/PostgresFulfillmentStore.cs:185-232 | reading a correction target raises the integrity exception if and only if it names a resolution whose disposition is void; such a resolution is itself void |
| `FulfillmentStore.Store.Execute` | modules/fulfillment/Application.Fulfillment.Postgres/PostgresFulfillmentStore.cs:23-93 | a command commits exactly when it passes every check; a commit writes, field by field, what the command asks, as one event, one activity row and one receipt; every other outcome leaves all tables alone; a known key is answered from its receipt; the tables stay sound |
| `FulfillmentStore.Store.Commit` | modules/fulfillment/Application.Fulfillment.Postgres/PostgresFulfillmentStore.cs:66-92 | the four writes happen together or not at all, write exactly the decided work, event, activity rows and receipt, and keep the tables sound |
| `FulfillmentStore.Store.AnswerFromReceipt` | modules/fulfillment/Application.Fulfillment.Postgres/PostgresFulfillmentStore.cs:146-168 | in a sound store a receipt is always readable and answers a replay or a conflict |
| `FulfillmentStore.TransitionKeepsOrder` | modules/fulfillment/Application.Fulfillment.Postgres/PostgresFulfillmentStore.cs:77-87 | the event, activity and void writes of one transaction keep work, events and activity in agreement |
| `FulfillmentStore.CommitKeepsTables` | modules/fulfillment/Application.Fulfillment.Postgres/PostgresFulfillmentStore.cs:70-92 | the four writes keep every other order and every earlier receipt sound |
| `FulfillmentTheorems.SnapshotIsReplay` | modules/fulfillment/Application.Fulfillment.Postgres/PostgresFulfillmentStore.cs:49-92 | completed and handed-off are sums over active effective entries, started holds iff exactly one active start exists, the active disposition is the one without an active resolution, and no active resolution targets a voided disposition |
| `FulfillmentTheorems.StageIsReplayed` | modules/fulfillment/Application.Fulfillment/FulfillmentContracts.cs:104-107 | in every sound order each stage holds if and only if the events say so: not started, paused by an open disposition, all handed off, all completed, or in between |
| `FulfillmentTheorems.ActivityIsDerived` | modules/fulfillment/Application.Fulfillment.Postgres/PostgresFulfillmentStore.cs:77-87 | the activity table holds nothing that the append-only events do not already say |
| `FulfillmentTheorems.ReceiptsReplay` | modules/fulfillment/Application.Fulfillment.Postgres/PostgresFulfillmentStore.cs:146-168 | every receipt is readable in every sound state: the same request replays the original work, any other conflicts |
| `FulfillmentTheorems.RepeatIsReplayed` | modules/fulfillment/Application.Fulfillment.Postgres/PostgresFulfillmentStore.cs:23-93 | whatever commands ran in between, repeating a committed command returns the original work |
| `FulfillmentTheorems.CorrectingVoidedResolutionFaults` | modules/fulfillment/Application.Fulfillment.Postgres/PostgresFulfillmentStore.cs:209-217 | after five accepted commands, correcting the voided resolution raises the integrity exception |
| `FeatureCatalog.Create` | modules/application-profiles/Application.Profiles/FeatureCatalog.cs:32-69 | succeeds exactly when identifiers are distinct, every dependency is defined and the graph is acyclic (within 1024 definitions); the order is a permutation with dependencies first; a refusal names a true reason, a cycle being a real one |
| `FeatureCatalog.CatalogIgnoresListing` | modules/application-profiles/Application.Profiles/FeatureCatalog.cs:32-69 | for every two orderings of the same definitions, whatever they are, both are accepted or neither, and then with the same graph and order |
| `FeatureCatalog.Sorter.Visit` | modules/application-profiles/Application.Profiles/FeatureCatalog.cs:133-175 | the recursive visit that mutates states, path and order computes the functional depth-first visit |
| `FeatureGraph.AtMostIsOrdinal` | modules/application-profiles/Application.Profiles/FeatureCatalog.cs:140-166 | identifiers are sorted ordinally: a strict prefix first, otherwise by the first difference |
| `FeatureGraph.VisitMeaning` | modules/application-profiles/Application.Profiles/FeatureCatalog.cs:133-175 | a visit either extends a dependencies-first order by its feature or returns a genuine cycle |
| `FeatureGraph.OrderExistsExactlyWhenAcyclic` | modules/application-profiles/Application.Profiles/FeatureCatalog.cs:133-175 | the sort yields an order, and then a dependencies-first permutation, if and only if the graph has no cycle |
| `FeatureGraph.OrderedIsAcyclic` | modules/application-profiles/Application.Profiles/FeatureCatalog.cs:133-175 | a graph with a dependencies-first order has no cycle |
| `FeatureGraph.OrderIgnoresListing` | modules/application-profiles/Application.Profiles/FeatureCatalog.cs:133-175 | the order does not depend on how the identifiers are listed |
| `FeatureCatalog.Compile` | modules/application-profiles/Application.Profiles/FeatureCatalog.cs:71-120 | the effective set is the least dependency-closed set above the request and the always-enabled features, listed in dependency order; refused exactly for malformed, repeated, unknown or unselectable requests |
| `FeatureCatalog.Expander.AddDependencies` | modules/application-profiles/Application.Profiles/FeatureCatalog.cs:122-131 | growing the shared set skips present members, yet everything it adds is expanded and needed |
| `FeatureCatalog.Close` | modules/application-profiles/Application.Profiles/FeatureCatalog.cs:95-107 | expanding the starting members in any order ends in the least closed set |
| `FeatureCatalog.ListedKeepsOrder` | modules/application-profiles/Application.Profiles/FeatureCatalog.cs:109-119 | filtering a dependency order by a closed set leaves a dependency order |
| `FeatureCatalog.ClosureIsMonotone` | modules/application-profiles/Application.Profiles/FeatureCatalog.cs:71-120 | asking for more never removes an effective feature |
| `Csv.Parse` | modules/customers/Application.Customers/CustomerDuplicateAndImport.cs:846-893 | the index loop with its lookahead computes the scanner function |
| `Csv.ParseAcceptsExactlyDocuments` | modules/customers/Application.Customers/CustomerDuplicateAndImport.cs:846-893 | a text is accepted with given rows if and only if it is the written form of a document of quoted or bare cells and CR LF, LF or CR breaks within the limits, having those rows |
| `Csv.PrintThenParse` | modules/customers/Application.Customers/CustomerDuplicateAndImport.cs:846-893 | quoting every field with doubled quotes and ending rows with CR LF, then parsing, returns the rows, whatever the fields hold |
| `Csv.TenFieldsFit` | modules/customers/Application.Customers/CustomerDuplicateAndImport.cs:857-858 | any ten fields within the length limit make a line that is read back |
| `Csv.LastFieldEscapesByOne` | modules/customers/Application.Customers/CustomerDuplicateAndImport.cs:857-892 | a bare text of 4097 units is one field, and is refused as soon as anything follows |
| `Csv.FinalCommaAddsField` | modules/customers/Application.Customers/CustomerDuplicateAndImport.cs:857-892 | ten fields and a comma that ends the text are read as eleven fields |
| `Csv.LastRowEscapesByOne` | modules/customers/Application.Customers/CustomerDuplicateAndImport.cs:880-892 | 10,002 rows are read when the last is not terminated |
| `Csv.ScanDocument` | modules/customers/Application.Customers/CustomerDuplicateAndImport.cs:855-892 | every document within the limits is read back as its rows |
| `Csv.Recognise` | modules/customers/Application.Customers/CustomerDuplicateAndImport.cs:855-892 | from every scanner state an accepted rest of the text completes a document that writes it |
| `Levenshtein.Compute` | modules/customers/Application.Customers/CustomerDuplicateAndImport.cs:160-172 | the two-row table returns the distance recurrence |
| `Levenshtein.DistanceIsLeast` | modules/customers/Application.Customers/CustomerDuplicateAndImport.cs:160-172 | the distance is the length of a shortest insert, delete and substitute script: one of that length exists and none is shorter |
| `Levenshtein.NearMissSymmetric` | modules/customers/Application.Customers/CustomerDuplicateAndImport.cs:96-101 | being a near miss is symmetric |
| `Levenshtein.IsFuzzyNameDiscovery` | modules/customers/Application.Customers/CustomerDuplicateAndImport.cs:96-101 | refuses names above 200 units; otherwise holds exactly when the names differ and a script of at most two edits exists |
| `Decimals.HalfEvenIsNearest` | modules/catalog/Application.Catalog/CatalogConversionsAndAvailability.cs:152-154 | the remainder comparison yields a nearest integer, the even one on a tie |
| `Decimals.SameRational` | modules/catalog/Application.Catalog/CatalogConversionsAndAvailability.cs:150-154 | rounding depends on the rational only, not on the fraction that writes it |
| `Decimals.RoundFixes` | modules/catalog/Application.Catalog/CatalogApplication.cs:411-416 | rounding to a precision leaves a decimal alone exactly when it is a multiple of the step |
| `Conversion.ConvertMeaning` | modules/catalog/Application.Catalog/CatalogConversionsAndAvailability.cs:141-164 | conversion answers exactly when inputs are acceptable and the exact rational, rounded once half to even, is positive and in range; that is the answer |
| `Conversion.ConvertIgnoresRepresentation` | modules/catalog/Application.Catalog/CatalogConversionsAndAvailability.cs:141-172 | trailing zeros in the inputs change nothing |
| `Conversion.ConvertDependsOnRatio` | modules/catalog/Application.Catalog/CatalogConversionsAndAvailability.cs:141-164 | the answer depends on the ratio of the factors only |
| `Conversion.ConvertMonotone` | modules/catalog/Application.Catalog/CatalogConversionsAndAvailability.cs:141-164 | a larger quantity never converts to a smaller one |
| `Conversion.ConvertIdentity` | modules/catalog/Application.Catalog/CatalogConversionsAndAvailability.cs:141-164 | equal factors and enough target precision give back the quantity |
| `Selling.LineAmountMeaning` | modules/pricing/Application.Pricing/SellingPriceArithmetic.cs:8-18 | an amount comes out exactly when the arguments are supported and the exact product, rounded once, is in range; the 96-bit intermediate product was then exact |
| `Selling.ProductMeaning` | modules/pricing/Application.Pricing/SellingPriceArithmetic.cs:12-13 | a product that lost digits, or overflowed, is beyond the range whether exact or not |
| `Invoices.PresentableExactly` | modules/invoices/Application.Invoices/InvoiceIssue.cs:874-882 | what is asked of a line before it is multiplied, spelled out |
| `Invoices.AreValidIssuedLines` | modules/invoices/Application.Invoices/InvoiceIssue.cs:764-811 | the loop accepts exactly the invoices with distinct positions, presentable lines, exact line totals and a total that is their sum |
| `Invoices.TryBuildLines` | modules/invoices/Application.Invoices/InvoiceIssue.cs:856-926 | lines come out exactly for a well-accounted order, carry every field and value over, and are themselves well accounted |
| `Invoices.PricedOrdersAreAccepted` | modules/invoices/Application.Invoices/InvoiceIssue.cs:856-926 | presentable lines are accepted exactly when every total is the selling arithmetic's and they sum to the order total |
| `SettlementLedger.ExecuteSound` | modules/invoices/Application.Invoices.Postgres/Persistence/PostgresCustomerSettlementStore.cs:20-113 | every command keeps the ledger sound |
| `SettlementMeaning.AcceptedCommandWritten` | modules/invoices/Application.Invoices.Postgres/Persistence/PostgresCustomerSettlementStore.cs:91-106 | an accepted command appends one event with its operation, evidence and actor, the next revision and the state it leads to; an allocation carries the command's receivable and amount, a release those of the allocation it names; nothing else changes |
| `SettlementMeaning.OpenAcceptedExactlyWhen` | modules/invoices/Application.Invoices.Postgres/Persistence/PostgresCustomerSettlementStore.cs:52-60 | a payment is opened exactly when it is new, its debtor known, its amount valid and its event identity new |
| `SettlementMeaning.EventsMirrorCommands` | modules/invoices/Application.Invoices.Postgres/Persistence/PostgresCustomerSettlementStore.cs:20-113 | after every run the table of events is the list of accepted commands, one event for each |
| `SettlementMeaning.FactsMirrorCommands` | modules/invoices/Application.Invoices.Postgres/Persistence/PostgresCustomerSettlementStore.cs:93-97 | every payment is as its opening command recorded it, and every receivable as it was recognised |
| `SettlementMeaning.ConfirmationNeedsNewEvidence` | modules/invoices/Application.Invoices/CustomerSettlement.cs:176-178 | after every run a confirmation is accepted only with evidence that differs from that of the last accepted confirming command of the payment |
| `SettlementTheorems.EveryRunIsSound` | modules/invoices/Application.Invoices/CustomerSettlement.cs:164-199 | after every run each payment is within its event budget and balance, each receivable within its original amount, and releases match active allocations |
| `SettlementTheorems.PaymentBalances` | modules/invoices/Application.Invoices/CustomerSettlement.cs:45-51 | the allocated amount is the sum of active allocations, lies between zero and the amount, and is not zero only when confirmed or disputed; rejected and reversed payments hold none |
| `SettlementTheorems.AllocationsFollowConfirmation` | modules/invoices/Application.Invoices/CustomerSettlement.cs:164-188 | every allocation was preceded by a confirmation from an account other than the recorder |
| `SettlementTheorems.AllocationsBalance` | modules/invoices/Application.Invoices.Postgres/Sql/CustomerSettlement.sql:266-316 | what all payments have allocated is what all receivables have received |
| `SettlementTheorems.ReserveSuffices` | modules/invoices/Application.Invoices/CustomerSettlement.cs:96-98 | from every reachable confirmed or disputed payment, releasing the active allocations in any order and then reversing is accepted at every step |
| `SettlementTheorems.RulesMatchGuard` | modules/invoices/Application.Invoices.Postgres/Sql/CustomerSettlement.sql:170-231 | after every run the C# rules and the insert trigger, written separately in SQL, accept the same mutations |
| `ProfileText.CanonicalInjective` | modules/application-profiles/Application.Profiles/TenantProfiles.cs:76-81 | length-prefixed canonical texts of different operations or values differ |
| `ProfileHistory.FingerprintIsIntent` | modules/application-profiles/Application.Profiles.Postgres/PostgresProfileStore.cs:36-39 | two valid requests share a canonical text if and only if they state the same intent |
| `ProfileHistory.TransactKeepsValid` | modules/application-profiles/Application.Profiles.Postgres/PostgresProfileStore.cs:199-237 | every command keeps the store valid, every receipt included, loses no retained row, and leaves no trace unless accepted |
| `ProfileHistory.ResultStays` | modules/application-profiles/Application.Profiles.Postgres/PostgresProfileStore.cs:313-349 | a result that once agreed with the retained facts agrees with them in every later state |
| `ProfileMeaning.AcceptedCommandWritten` | modules/application-profiles/Application.Profiles.Postgres/PostgresProfileStore.cs:31-168 | every accepted command writes and returns, field by field, what it asks: an edit its flags, a publication the draft's two flags with identity, actor, time and observed revision, a profile the named policy, selection, device and time, an activation its routing; and one receipt |
| `ProfileMeaning.DraftMirrorsEdits` | modules/application-profiles/Application.Profiles.Postgres/PostgresProfileStore.cs:43-49 | after every run the draft has the reference flag of the last accepted edit and the approval last given |
| `ProfileMeaning.RetainedFactsTraced` | modules/application-profiles/Application.Profiles.Postgres/PostgresProfileStore.cs:60-141 | after every run each retained policy holds the flags that the edits before its publication had made, and each retained profile what its command asked for |
| `ProfileTheorems.RepeatReturnsOriginal` | modules/application-profiles/Application.Profiles.Postgres/PostgresProfileStore.cs:199-237 | whatever ran in between, repeating an accepted command with the same actor, key and intent returns the original result and changes nothing; exact condition on the first command's clock |
| `ProfileTheorems.ReceiptOfDefaultInstantFaults` | modules/application-profiles/Application.Profiles.Postgres/PostgresProfileStore.cs:218-219 | a first edit at the default instant is accepted, and its repeat raises the integrity exception |
| `ProfileTheorems.OtherIntentConflicts` | modules/application-profiles/Application.Profiles.Postgres/PostgresProfileStore.cs:210-217 | another intent under the same actor, operation and key conflicts and changes nothing |
| `ProfileTheorems.EveryRunIsValid` | modules/application-profiles/Application.Profiles.Postgres/PostgresProfileStore.cs:60-168 | over every run published policies, profiles and receipts are never altered or removed and the store stays valid |
| `ProfileTheorems.RunsFromEmptyTables` | modules/application-profiles/Application.Profiles.Postgres/PostgresProfileStore.cs:31-168 | a store that starts empty is always valid, its revisions are the counts of accepted commands, and at most one baseline is ever selected |
| `ProfileTheorems.RevisionsCountCommands` | modules/application-profiles/Application.Profiles.Postgres/PostgresProfileStore.cs:31-168 | policy and authority revisions count exactly the accepted commands of their family |
| `ProfileTheorems.BaselineChosenOnce` | modules/application-profiles/Application.Profiles.Postgres/PostgresProfileStore.cs:142-168 | a chosen legacy baseline stays, and at most one command of a run selects one |
| `ProfileTheorems.RoutingNamesRetained` | modules/application-profiles/Application.Profiles.Postgres/PostgresProfileStore.cs:284-305 | the active profile is retained; the baseline is a retained baseline profile that requires neither reference nor approval |
| `ProfileTheorems.NewCommandFaultsExactlyWhen` | modules/application-profiles/Application.Profiles.Postgres/PostgresProfileStore.cs:60-141 | in a valid store a new command raises an exception if and only if its publication's identity or time is unusable |
| `ProfileTheorems.NewCommandAcceptedExactlyWhen` | modules/application-profiles/Application.Profiles.Postgres/PostgresProfileStore.cs:31-168 | in a valid store a new command is accepted if and only if its revision is current, what it names is retained, its baseline is admissible and not yet chosen, and its publication can be written |
| `ProfileStore.Store.Execute` | modules/application-profiles/Application.Profiles.Postgres/PostgresProfileStore.cs:199-237 | the imperative transaction, with its row writes and roll-backs, computes the transaction function, keeps the store valid, and writes what an accepted command asks, field by field |
| `Pricing.ResolvesExactlyTheSoleBest` | modules/pricing/Application.Pricing/PriceSelectionEngine.cs:14-90 | a price is selected if and only if it is the only candidate in force of the highest precedence, whatever the order of the candidates |
| `Pricing.InForceExactly` | modules/pricing/Application.Pricing/PricingContracts.cs:317-327 | a candidate is in force exactly when it is published for this item, unit, conversion and currency, has begun and not ended, and its scope's holder is the context's |
| `Pricing.PrecedenceIsLadder` | modules/pricing/Application.Pricing/PricingContracts.cs:126-135 | committed facts rank before customer, program, organization, wholesale and default |
| `CommitGuardMeaning.LinePassesExactly` | modules/orders/Application.Orders/OrderCommercialCommitGuard.cs:73-106 | a line passes if and only if the catalog still offers it with the same listed facts and the price read selects, as sole best, the retained revision at the retained price, item, unit, currency, policy revision and context; with an override, if the same evidence could be made again under authority held now |
| `CommitGuardMeaning.OrderPassesExactly` | modules/orders/Application.Orders/OrderCommercialCommitGuard.cs:60-106 | an order passes if and only if every line is current, or its quotation says so |
| `CommitGuardMeaning.OfferedLinesPass` | modules/quotations/Application.Quotations/QuotationRules.cs:99-139 | every catalog line of a valid offer, override included, passes the guard in the world in which it was priced |
| `CommitGuard.IsCompatible` | modules/orders/Application.Orders/OrderCommercialCommitGuard.cs:60-106 | the loop with early returns computes the guard's verdict; a compatible order is compatible line by line |
| `CommitGuard.LazyAuthorityAccepts` | modules/orders/Application.Orders/OrderCommercialCommitGuard.cs:35-57 | for every order and every current catalog, price and policy state, lazily read authority accepts exactly the orders that full authority accepts |
| `CommitGuard.LazyAuthorityIsExactUnless` | modules/orders/Application.Orders/OrderCommercialCommitGuard.cs:35-106 | the verdicts, exceptions included, differ if and only if elevated authority was not read and the first failing line holds an override no request can carry under a policy of unsupported semantics |
| `CommitGuard.GuardsCanDiffer` | modules/orders/Application.Orders/OrderCommercialCommitGuard.cs:85-101 | an order that passes the check of commercial facts, on which the lazy guard throws and the eager one answers false |
| `CommitGuard.WellFormedOverridesJudgeAlike` | modules/pricing/Application.Pricing/PricingContracts.cs:458-484 | when a request can carry every retained override, the two guards give the same verdict |
| `CommitGuard.EngineEvidenceIsWellFormed` | modules/pricing/Application.Pricing/PriceSelectionEngine.cs:102-142 | a request can carry again every override that the engine wrote |
| `CommitGuard.EngineOverridesJudgeAlike` | modules/orders/Application.Orders/OrderCommercialCommitGuard.cs:35-106 | for every order whose overrides the engine made, lazy and full authority give the same verdict, exceptions included |
| `CommitGuard.SupportedPoliciesJudgeAlike` | modules/pricing/Application.Pricing.Postgres/Persistence/PostgresPricingStore.Policy.cs:69-82 | for every order, lazy and full authority give the same verdict while current policies are read with supported semantics |
| `CommitGuard.CommittedOverridesAreAuthorised` | modules/orders/Application.Orders/OrderCommercialCommitGuard.cs:83-103 | an order commits with an override only under override authority held now, elevated authority where it went beyond policy |
| `Quotations.Validate` | modules/quotations/Application.Quotations/QuotationRules.cs:89-162 | the validator's loops accept exactly the offers with consistent retained facts, a normal form, counted positions, selling-arithmetic totals and a supported sum |
| `Quotations.RequireValid` | modules/orders/Application.Orders/AcceptedQuotationOrder.cs:20-43 | the order validator's loops accept exactly the orders with a valid header, lines, total and commercial facts |
| `Quotations.LineCarriesOver` | modules/orders/Application.Orders/OrderCommercialFactsValidation.cs:8-48 | a valid offer's line, translated, passes the order's line checks and the commercial-facts check |
| `Quotations.ValidatorsAgree` | modules/quotations/Application.Quotations/QuotationRules.cs:106-147 | the offer's check of a catalog line is the order's check of commercial facts and, exactly, what the offer asks on top |
| `Quotations.AcceptedQuotationsAreValidOrders` | modules/quotations/Application.Quotations/QuotationRules.cs:78-85 | every issued quotation with nonempty identities and positive numbers whose offer is valid translates into an order that the order validator accepts, with the same origin, summary, currency, context, total and, line by line, the same fields and facts |
| `Quotations.SomeOfferIsValid` | modules/quotations/Application.Quotations/QuotationRules.cs:89-162 | valid offers of both modes exist: a manual line, and a catalog line with an override |
| `Quotations.ValidOffersCanBeInvoiced` | modules/invoices/Application.Invoices/InvoiceIssue.cs:856-926 | written with at most four digits, the lines and total of a valid offer make a well-accounted invoice |

## Left out

- HTTP, hosting, user interface, external identity, authorization and object-storage providers: input and output only; authority decisions enter as values.
- SQL text, row-level security, locks and database triggers: tables are maps and sequences and a command is one atomic step. The settlement insert trigger is modelled; the fulfillment and profile triggers are not, and the fulfillment activity's kind and target columns are taken from their event, as the trigger in FirstServiceFulfillment.sql demands.
- JSON shape and byte-size checks: arbitrary predicates in purchasing, absent elsewhere.
- SHA-256: canonical texts are compared instead. `ProfileText.GuidText` writes an identity as decimal digits; only that different identities have different texts is used.
- Supplier commands (`ApplySupplier`) and the purchasing store: easier than the purchase ledger.
- Null references and time offsets do not arise: all times are UTC. Enumeration values outside their definition do not arise. Strings are Unicode scalar sequences outside `Csv` and `Levenshtein`, so ill-formed UTF-16 does not arise.
- The settlement store's idempotency receipts and bank-reference uniqueness: a replayed or conflicting command changes nothing, so runs are unaffected; the same receipt pattern is proved for fulfillment and profiles.
- The import plan around the scanner, duplicate evidence other than the fuzzy one, claims and leases: only easy members or stores that are not part of this model.
- Price-selection explanations keep the number of candidates, not their sorted list or wording; the override envelope's percentage arithmetic is an arbitrary function.
- `AcceptedQuotationOrder.Matches`, quotation responses and conversion, order approval: thin comparisons or state decided elsewhere.
- Decimal division of the converted integer by a power of ten is taken as exact, which it is because the quotient fits; decimal sums of supported amounts likewise.

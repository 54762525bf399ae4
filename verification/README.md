# Accounting reconciliation, guarded writes and exact decimals

A Dafny model of the parts of the trading toolkit whose correctness carries real money, with proofs of what
they promise. `dafny verify dfyconfig.toml` checks everything.

**Accounting epoch.** `Epoch.ProjectEpoch` decides whether the stored history between two wallet anchors explains
the change of the balance. It is built from canonical selection (`Selection` says which rows are to be chosen,
`SelectEvidence` holds the loops), the coverage sweep (`Coverage`), normalised transactions (`Normalization`), the
currency bridge (`Bridge`) and the match of executions with trades (`Matching`). Its status is RECONCILED exactly when
`Epoch.Reconciles` holds of its selection, and every reason code is listed exactly under a condition of its own
(`BalanceCodes`, `HistoryCodes`, `EpochReasons`). From that follow conservation of USDT, the bijection of executions and trades,
gap-free coverage and acceptance by the report validator (`EpochReport`); the projection does not depend on the order in which
the history is listed (`EpochOrder`). `Performance` adds the realized-PnL roll-ups.

**Guarded entry.** `DemoEntry` writes one approved order behind lease, recovery, HALT, approval and durable intent;
`RecoverRuns` and `DemoRecovery` recover earlier runs. Every port of `Journal` may fail or answer anything, so the
safety theorems hold for every behaviour of journal, clock and exchange, and for a crash after any call: they are
statements about every trace. `Keychain` is the all-or-nothing update of three records, `Ingestion` the crash-idempotent
storing of fills.

**Probe.** `Decimals`, `StepRounding` and `DecimalText` are the exact decimal arithmetic, `Sizing` the order derived
with it and `SizingCases` when there is one, `Canonical` and `ProbePlans` the plan encoding and its approval, `Exposure` and
`ProbeRecovery` the recovery of an interrupted run with its cleanup writes.

How things are represented:

- Amounts are integer coefficients with a decimal scale; `Decimals.Value` is the real number one stands for. The decimals
  of the accounting modules (src/domain/shared/decimal.ts) accept the same strings and print the same normal form.
- A timestamp carries its text and the millisecond it parses to, if it parses.
- SHA-256 is a free constructor or a function parameter. Where a content hash has to determine the fact and its time, the
  theorem says so (`Epoch.HashesDecide`).
- `localeCompare` and the code unit order of `sort()` are both taken to be one total order on strings (`Orders.StrLe`).
- Observation IDs are the primary key of the store; the theorems about selection assume them distinct (`History.DistinctIds`).
- A set of reason codes is a set; the source sorts it for output.
- A call that can throw returns a `Result`.

Where the code does less than one would expect, the model follows the code:

- `deriveSize` compares only the two exits with each other. That suffices: both lie strictly beyond the price, and the only
  sizes refused for their exits are those whose price is a single tick (`Sizing.DerivedExits`, `Sizing.LowerExitIsPositive`).
- `deriveOwnedExposure` throws, rather than reporting an unresolved exposure, exactly when the executions add up and both positions
  are read, but the two positions, or their difference and the executions' total, are more than 1000 decimal places apart
  (`Exposure.Throws`; `Exposure.ThrowsOnPositions` and `Exposure.ThrowsOnChange` give inputs). Otherwise it resolves exactly the explained
  positions whose executions can each be added to those before them; `Exposure.ExplainedUnresolved` is one explained but not resolved.
- `cleanupOwnedEntry` reports an entry in a terminal status as already flat without reading the state. Recovery never reaches
  that case: a resting order has been read in another status (`ProbeRecovery.ReconcileOrder`), so its clean verdict still rests on a reading.
- `reconcileOrder` never returns a rejected order, so the branch of `recoverInterruptedRun` for one is not entered.

## Model

| member | source | states |
|---|---|---|
| Decimals.NormalizedIsExact | scripts/bybit-probe/decimal.ts:20-29 | Stripping trailing zeros keeps the number and ends in the normal form. |
| Decimals.Normalize | scripts/bybit-probe/decimal.ts:20-29 | The stripping loop ends in the normal form of the same number, for negative coefficients too. |
| Decimals.NormalFormIsUnique | scripts/bybit-probe/decimal.ts:20-29 | Equal numbers in normal form are the same representation. |
| Decimals.RescaleKeepsValue | scripts/bybit-probe/decimal.ts:70-77 | Aligning to a larger scale keeps the number. |
| Decimals.PlusIsExact | scripts/bybit-probe/decimal.ts:88-96 | Sum and difference are exact and normal. |
| Decimals.TimesIsExact | scripts/bybit-probe/decimal.ts:98-103 | The product is exact and normal. |
| Decimals.CompareIsExact | scripts/bybit-probe/decimal.ts:79-86 | The sign of the comparison is the order of the numbers, in all three cases. |
| Decimals.NegateIsExact | scripts/bybit-probe/decimal.ts:204-210 | Negation and absolute value are those of the number; negation keeps the normal form. |
| Decimals.SignOfValue | scripts/bybit-probe/decimal.ts:196-202 | Positive and zero are decided by the coefficient. |
| Decimals.TotalIsSum | src/domain/shared/decimal.ts:80-90 | Adding up from zero gives the sum of the numbers. |
| StepRounding.BoundedOperations | scripts/bybit-probe/decimal.ts:13-18 | The bounded operations are the exact ones when the scales are at most 1000 apart, and throw exactly otherwise. |
| StepRounding.IntegerQuotientIsOptimal | scripts/bybit-probe/decimal.ts:105-117 | The quotient is the greatest (least) integer whose product stays at or below (above), for negative numerators too. |
| StepRounding.ScaleByRational | scripts/bybit-probe/decimal.ts:119-145 | The loop over the reduced denominator computes the scaled value, or refuses the factor. |
| StepRounding.MultiplyByPowerOfTenIsExact | scripts/bybit-probe/decimal.ts:119-145 | A power-of-ten denominator divides exactly. |
| StepRounding.MultiplyByRationalIsOptimal | scripts/bybit-probe/decimal.ts:119-145 | Any other denominator gives the best decimal at the value's own scale in the asked direction, either sign. |
| StepRounding.CeilRatioIsOptimal | scripts/bybit-probe/decimal.ts:147-167 | The ratio is rounded up to the least multiple of the step that reaches it. |
| StepRounding.RoundToStepIsOptimal | scripts/bybit-probe/decimal.ts:169-194 | Rounding to a step gives the greatest multiple at or below, or the least at or above, for negatives too. |
| StepRounding.RoundToStepCases | scripts/bybit-probe/decimal.ts:169-194 | Rounding to a step fails exactly for a step that is not positive or operands beyond the scale limit, with the error of that case. |
| StepRounding.CeilRatioCases | scripts/bybit-probe/decimal.ts:147-167 | Rounding a ratio up fails exactly for a negative numerator, a divisor or step that is not positive, or operands beyond the scale limit. |
| StepRounding.MultiplesAscend | scripts/bybit-probe/decimal.ts:169-194 | Multiples of a positive step are ordered like their factors. |
| DecimalText.ParseDecimalMeaning | scripts/bybit-probe/decimal.ts:31-48 | The parser accepts exactly -?digits(.digits)? and gives the number spelled, in normal form. |
| DecimalText.ParsedIsNormal | scripts/bybit-probe/decimal.ts:31-48 | Whatever parses is in normal form. |
| DecimalText.ParseOfPrint | scripts/bybit-probe/decimal.ts:54-68 | Parsing what was printed gives the normal form of the same number, for every representation. |
| DecimalText.RoundTrip | scripts/bybit-probe/decimal.ts:31-68 | Printing then parsing a normal decimal returns it. |
| DecimalText.PrintedFormDecidesValue | scripts/bybit-probe/decimal.ts:31-68 | Two strings print alike after parsing exactly when they spell one number; printing again changes nothing. |
| Sizing.DerivedPrice | scripts/bybit-probe/preflight.ts:306-330 | The price is the tick multiple nearest the offset book price on the passive side. |
| Sizing.DerivedQuantity | scripts/bybit-probe/preflight.ts:331-345 | The quantity is the least multiple of the step meeting both the minimum quantity and the minimum notional. |
| Sizing.DerivedExits | scripts/bybit-probe/preflight.ts:346-370 | Both exits lie strictly beyond the price on their sides; they are refused exactly when the price is one tick. |
| Sizing.LowerExitIsPositive | scripts/bybit-probe/preflight.ts:346-370 | The lower exit is positive exactly when the price is not one tick. |
| Sizing.DeriveSizeIsOptimal | scripts/bybit-probe/preflight.ts:306-381 | Every size derived is passive, minimal, at most 10 in notional, and has stop loss and take profit strictly on opposite sides of the price. |
| SizingCases.DerivePriceCases | scripts/bybit-probe/preflight.ts:306-330 | The passive price is derived exactly when the tick is positive and some positive multiple of it lies on the passive side of the offset book price; scale, step and price errors exactly in their own cases, in this order. |
| SizingCases.DeriveQuantityCases | scripts/bybit-probe/preflight.ts:331-345 | At a positive price the least admissible quantity is derived exactly when the step is positive, the minimum notional is not negative and no operation exceeds the scale limit; each error exactly in its own case. |
| SizingCases.DeriveSizeDecides | scripts/bybit-probe/preflight.ts:306-381 | Every outcome of sizing, the size and each error in order, occurs exactly on its own condition on the strings given; notional above cap exactly when the least admissible quantity times the price exceeds 10. |
| SizingCases.DerivedExactly | scripts/bybit-probe/preflight.ts:306-381 | Of readable strings within the scale limit a size is derived exactly when tick and step are positive, there is a passive price, the minimum notional is not negative, and the least admissible quantity costs at most 10 at a price that is not one tick. |
| SizingCases.SmallScalesFit | scripts/bybit-probe/preflight.ts:306-381 | With at most 400 decimal places in each string no operation exceeds the scale limit. |
| Canonical.CanonicalIsPrint | scripts/bybit-probe/probe-plan.ts:193-216 | The canonical text is the print of what a value means, or unsupported exactly when some part is. |
| Canonical.EscapedIsInjective | scripts/bybit-probe/probe-plan.ts:193-216 | String escaping is injective. |
| Canonical.NumberTextIsInjective | scripts/bybit-probe/probe-plan.ts:193-216 | Integer printing is injective. |
| Canonical.PrintIsInjective | scripts/bybit-probe/probe-plan.ts:193-216 | Different meanings print differently. |
| Canonical.CanonicalDecidesMeaning | scripts/bybit-probe/probe-plan.ts:193-216 | Two values have one canonical text exactly when they mean the same: key order and undefined properties do not matter, everything else does. |
| Canonical.RecordMeaning | scripts/bybit-probe/probe-plan.ts:193-216 | Records with the same keys mean the same exactly when their properties do. |
| ProbePlans.CopySetFields | scripts/bybit-probe/probe-plan.ts:119-159 | The field loop copies exactly the set fields, decimals in normal form. |
| ProbePlans.NormalizedParamsDecideFields | scripts/bybit-probe/probe-plan.ts:119-159 | Parameters normalise alike exactly when every field is set alike, decimals up to spelling. |
| ProbePlans.EqualSpellingsOneDigest | scripts/bybit-probe/probe-plan.ts:162-220 | Plans built from spellings of equal decimals are one plan with one digest. |
| ProbePlans.DigestDecidesPlan | scripts/bybit-probe/probe-plan.ts:218-220 | Two plans have one digest exactly when they agree field for field. |
| ProbePlans.BuiltPlanSends | scripts/bybit-probe/probe-plan.ts:119-191 | A plan sends exactly the allowed parameters it was built with, decimals in normal form, to its endpoint. |
| ProbePlans.AuthorizationMeaning | scripts/bybit-probe/approval.ts:44-79 | A plan is approved exactly when it has not expired and the TTL is positive, until the smaller of its own expiry and the end of the TTL; refused as expired or for its TTL exactly otherwise, in this order. |
| ProbePlans.OnlyTheApprovedPlanPasses | scripts/bybit-probe/approval.ts:44-103 | Re-verification passes exactly for the approved plan before the approval expires, which is at the earlier of the plan's expiry and the end of the TTL. |
| Coverage.SweepGaps | src/application/history-accounting-epoch.ts:468-485 | The gaps of the sweep are exactly the points no interval holds, in order and maximal. |
| Coverage.ProjectSourceCoverage | src/application/history-accounting-epoch.ts:423-493 | The gaps of a source are exactly the points of the range outside every admitted window; a refusal reason is raised exactly when some checkpoint is refused with it. |
| Coverage.MergeCoverageIntervals | src/application/history-accounting-report-v2.ts:773-789 | Merging keeps the union and leaves a missing point between any two intervals. |
| Coverage.WholeRange | src/application/history-accounting-report-v2.ts:791-858 | Separated intervals cover the range exactly when they are the one interval. |
| Coverage.SameAdmission | src/application/history-accounting-report-v2.ts:732-771 | The witness counts a checkpoint exactly when the epoch sweep admits it. |
| Coverage.MakeCoverageWitness | src/application/history-accounting-report-v2.ts:791-858 | The witness's merged intervals are the admitted points; it is terminally complete exactly when every point of the range was queried. |
| Coverage.SweepAndWitnessAgree | src/application/history-accounting-report-v2.ts:448-563 | The sweep reports no gap exactly when the witness is terminally complete, and gaps and merged intervals divide the range. |
| Coverage.UnqueriedWindows | src/application/history-coverage.ts:169-206 | The unqueried windows are exactly the hull of the queried windows minus their union, maximal, each with the filter hashes ending just before it plus the one that ends it. |
| Selection.ObservationsAreOrdered | src/application/history-accounting-normalization.ts:123-137 | The output comparator is a total preorder whose ties share the observation ID. |
| Selection.RecencyIsOrdered | src/application/history-accounting-normalization.ts:113-121 | The recency comparator is a total preorder whose ties share the observation ID. |
| Selection.RecencyMeaning | src/application/history-accounting-normalization.ts:113-121 | Recency puts the row collected later first, and of two collected at once the one of smaller ID, code unit by code unit. |
| Selection.ObservationOrderMeaning | src/application/history-accounting-normalization.ts:123-137 | The output order is by event time, then revision time, source, event identity, content hash and observation ID, each only if those before are equal. |
| Selection.SelectionListsNewest | src/application/history-accounting-normalization.ts:198-364 | Every selected transaction row was collected last of its ID, every selected group row last of its content and revised strictly after the newest row of any other content; the rows are listed in the output order. |
| Selection.KeyTextIsInjective | src/application/history-accounting-normalization.ts:189-196 | Group keys with one text are equal. |
| Selection.SelectionIsUnique | src/application/history-accounting-normalization.ts:257-364 | Two selections of the same sets of observations and conflicts are equal, lists and order. |
| Selection.PermutationInvariance | src/application/history-accounting-normalization.ts:257-364 | Permuting observations and stored conflicts changes neither the selected nor the conflict list. |
| Selection.SelectionPartition | src/application/history-accounting-normalization.ts:198-364 | Every transaction ID and every group that occurs has exactly one selected row and no conflict, or exactly one conflict and no row. |
| Selection.Reselection | src/application/history-accounting-normalization.ts:198-364 | Every part of a selection is chosen whole from itself, and nothing about it is reported. |
| Selection.ReselectionReportsNothing | src/application/history-accounting-report.ts:731-757 | Selecting part of a selection again, as the performance projection of a report does, lists that part without conflicts. |
| SelectEvidence.IndexConflicts | src/application/history-accounting-normalization.ts:276-293 | The conflict index fails exactly on a malformed transaction conflict and holds the conflict IDs of every transaction. |
| SelectEvidence.GroupObservations | src/application/history-accounting-normalization.ts:294-312 | The observations are split by transaction and by group, in input order, without loss. |
| SelectEvidence.DistinctContents | src/application/history-accounting-normalization.ts:198-215 | One newest row is kept for every content hash. |
| SelectEvidence.SelectClosedPnlGroup | src/application/history-accounting-normalization.ts:198-255 | A group selects its only content or the one revised strictly last, and otherwise reports all its observation IDs. |
| SelectEvidence.SelectTransactions | src/application/history-accounting-normalization.ts:313-339 | Every transaction yields its newest row, or a conflict when contents differ or a conflict is stored. |
| SelectEvidence.SelectGroups | src/application/history-accounting-normalization.ts:340-347 | Every group yields its winner or a revision conflict. |
| SelectEvidence.SelectCanonicalHistoryEvidence | src/application/history-accounting-normalization.ts:257-364 | Selection fails exactly on malformed input and, with distinct IDs, lists exactly the chosen rows and reported conflicts, sorted; every row listed is the newest of its transaction or content. |
| Normalization.NormalizationMeaning | src/application/history-accounting-normalization.ts:390-449 | Normalisation fails exactly on an unreadable amount; components match exactly when the change is cash flow plus funding minus fee, funding omitted only for TRADE. |
| Normalization.ExpectedMeaning | src/application/history-accounting-normalization.ts:415-427 | The expected change exists exactly when its components do and is their movement. |
| Normalization.PrintedMeaning | src/application/history-accounting-normalization.ts:430-449 | Printed amounts parse back to themselves. |
| Normalization.NormalizedFields | src/application/history-accounting-normalization.ts:390-449 | Every amount of a normalised transaction is the one its field states; trades and funding only corroborate, everything else moves the account. |
| Bridge.ReadBalances | src/application/history-accounting-epoch.ts:339-391 | The balance index holds every named coin, known only when named once with a known non-negative balance; the reasons are exactly those of the assets. |
| Bridge.QuietWallet | src/application/history-accounting-epoch.ts:339-391 | A wallet raises nothing exactly when it is one USDT asset with a known balance and nothing borrowed, accrued or granted. |
| Bridge.BridgeMeaning | src/application/history-accounting-epoch.ts:579-631 | The amounts of a bridge: change is the sum of the rows, expected is opening plus change, drift "0" exactly when closing is expected; each present exactly when its inputs are known. |
| Bridge.QuietBridge | src/application/history-accounting-epoch.ts:579-631 | A fully known bridge raises nothing exactly when it is USDT and balances. |
| Bridge.ProjectCurrencies | src/application/history-accounting-epoch.ts:565-639 | One bridge for every currency of a wallet or a row, in order, with exactly their reasons. |
| BalanceCodes.KindMeaning | src/application/history-accounting-normalization.ts:377-388 | A transaction is a transfer, or unclassified, exactly by its type names and whether they contain FUND. |
| BalanceCodes.WalletReasonsMeaning | src/application/history-accounting-epoch.ts:339-391 | Each code of a wallet but the missing balance: an unnamed asset, a coin named twice, a coin other than USDT, something borrowed, accrued or granted. |
| BalanceCodes.BridgeReasonsMeaning | src/application/history-accounting-epoch.ts:565-639 | A bridge raises a drift exactly when both balances and the change are reported and closing differs from opening plus change; an unsupported currency exactly when it is not of USDT; a missing balance exactly when it reports none. |
| BalanceCodes.BridgesReport | src/application/history-accounting-epoch.ts:565-577 | There is a bridge for exactly the currencies named by a wallet or moved by a readable transaction of the ledger. |
| BalanceCodes.BridgeReports | src/application/history-accounting-epoch.ts:579-631 | A bridge reports what both wallets hold, what the transactions of its currency state as changes and as transfers, and the drift between them, each exactly when it is known. |
| BalanceCodes.BridgesDecided | src/application/history-accounting-epoch.ts:565-639 | What the reported bridges raise is decided by the wallets and the ledger: a balance not held once and known by both wallets, a closing holding other than opening plus credits, a currency other than USDT. |
| Matching.ExactMatchMeaning | src/application/history-accounting-epoch.ts:647-656 | Amounts match exactly when both are stated and equal. |
| Matching.MatchMeaning | src/application/history-accounting-epoch.ts:663-687 | An execution matches a trade exactly when they agree in order, category, symbol, side and fee currency, state equal quantity, price and fee, and there is no other fee. |
| Matching.TradesMeaning | src/application/history-accounting-epoch.ts:658-661 | The trades are the transactions of type TRADE or TRADE_REBATE, each as often as listed. |
| Matching.MarkedOnce | src/application/history-accounting-epoch.ts:703-716 | A filter of length one means exactly one match. |
| Matching.VerifyExecutionAndCloseEvidence | src/application/history-accounting-epoch.ts:689-750 | No execution mismatch exactly when all executions are trades and match one to one; no close mismatch exactly when every closed-PnL row agrees. |
| Matching.MatchingIsBijection | src/application/history-accounting-epoch.ts:663-716 | A one-to-one match is a bijection of rows that agree in order, category, symbol, side, price, quantity and fee, so counts, total quantities and total fees are equal. |
| Matching.PairedIsOneToOne | src/application/history-accounting-epoch.ts:696-716 | Executions paired with trades by a bijection are all trades and match one to one, so nothing else is a mismatch. |
| Matching.CloseExecutionsMeaning | src/application/history-accounting-epoch.ts:719-725 | The executions counted for a closed-PnL row are the trades of its order, category and symbol, each as often as listed. |
| Matching.CloseMeaning | src/application/history-accounting-epoch.ts:718-749 | A closed-PnL row agrees exactly when its executions are as many as it counts and their stated fees add up to its close fee. |
| Anchors.QuietAnchor | src/application/history-accounting-epoch.ts:224-305 | An anchor raises nothing exactly when it is authentic, of the kind and scope, as documented and well timed; then it sets the response time as boundary. |
| HistoryCodes.AnchorReasonsMeaning | src/application/history-accounting-epoch.ts:224-305 | Each code of an anchor: its kind, a scope or binding other than the epoch's at its own origin, an undocumented capture, times out of order; it sets the time its wallet was read as boundary exactly when it is authentic with times in order. |
| EpochRows.RelevantMembers | src/application/history-accounting-epoch.ts:940-1003 | Selection is made from exactly the observations of the epoch or a boundary, those sharing a transaction with one, and the executions of orders closed in it. |
| EpochRows.QuietObservation | src/application/history-accounting-epoch.ts:1060-1145 | A selected observation raises nothing exactly when its time is known, it is no boundary event and its transaction is settled. |
| EpochRows.SettledRaisesNothing | src/application/history-accounting-epoch.ts:1082-1145 | A transaction raises nothing exactly when it is a linear or transfer USDT movement explained by its components, without bonus. |
| HistoryCodes.EntryReasonsMeaning | src/application/history-accounting-epoch.ts:1103-1145 | Each code of a transaction of the epoch, by what its fields state: unreadable, of unknown type, outside linear, without currency or change, not in USDT, with components missing or not adding up, with a bonus. |
| HistoryCodes.EpochMeaning | src/application/history-accounting-epoch.ts:890-935 | An epoch lies between two authentic captures read in order; what has to be covered reaches from the first reading of the opening capture to the last of the closing one. |
| HistoryCodes.CoverageReasonsMeaning | src/application/history-accounting-epoch.ts:423-533 | The codes of coverage checkpoint by checkpoint: a gap exactly when no checkpoint answers for some instant and source, a scope, filter or conflict count refused exactly on its own condition on one checkpoint, windows of at most seven days. |
| HistoryCodes.LocatedCount | src/application/history-accounting-epoch.ts:519-531 | A checkpoint's conflicts are counted by source, filter hash and window. |
| HistoryCodes.SelectableMeaning | src/application/history-accounting-epoch.ts:940-1003 | Selected from are the observations between the first and the last reading of the captures, those of one transaction with one, and executions of orders closed in the epoch. |
| HistoryCodes.OfEpochMeaning | src/application/history-accounting-epoch.ts:752-800 | A stored conflict is of the epoch exactly when an observation of it is around the epoch, or its window lies in a capture; unobserved, when its window meets the epoch or it names none. |
| HistoryCodes.SelectionReasonsMeaning | src/application/history-accounting-epoch.ts:1017-1058 | An identity conflict is listed exactly when one is stored or two observations of a transaction around the epoch disagree in content; a revision conflict exactly when the rows of a group have no last revision; invalid evidence exactly when something selected from is malformed. |
| Epoch.SortSelected | src/application/history-accounting-epoch.ts:1060-1148 | The loop over the selection collects exactly the rows, trades, executions and closes of the epoch and all their reasons. |
| Epoch.ProjectCoverage | src/application/history-accounting-epoch.ts:921-935 | Each source gets its exact gaps; the reasons are exactly gap, filter and scope refusals of some source, none when all four are queried without gap and refusal. |
| Epoch.SelectEpoch | src/application/history-accounting-epoch.ts:1017-1058 | The reasons are exactly those of the stored conflicts, of the selection conflicts of the epoch and of malformed input. |
| Epoch.SettleAccounts | src/application/history-accounting-epoch.ts:1149-1172 | The bridges are those of both wallets over the selected rows and the reasons exactly those of rows, matching, wallets and bridges; none exactly when all rows are sound, executions match and both wallets balance. |
| Epoch.ProjectEpoch | src/application/history-accounting-epoch.ts:890-1202 | With distinct IDs every reason is listed exactly when the anchors, the history or the accounts raise it, and the status is RECONCILED exactly when some selection of the input reconciles its epoch; the projection then reports that selection in one USDT bridge with covered sources; its gaps are exact whenever both boundaries are set in order. |
| Epoch.SelectionIsLedger | src/application/history-accounting-epoch.ts:890-1202 | The selected transactions of a reconciled epoch are all transaction IDs observed in it, each once, reporting what was observed. |
| Epoch.Conservation | src/application/history-accounting-epoch.ts:890-1202 | Closing USDT is opening USDT plus cash flow + funding - fee of every transaction ID observed in (opening, closing], each counted once; drift is "0". |
| Epoch.ReconciledConserves | src/application/history-accounting-epoch.ts:890-1202 | Every RECONCILED projection reports a ledger of all transaction IDs of the epoch; the closing balance it prints is the opening one plus what the ledger adds up to, with drift "0". |
| Epoch.OnlyEvidence | src/application/history-accounting-epoch.ts:1013-1020 | If any selection reconciles the epoch, it is the one the projection was made from. |
| Epoch.ExecutionsMatchTrades | src/application/history-accounting-epoch.ts:663-716 | In a reconciled epoch executions and trades are paired by a bijection keeping quantities and fees. |
| Epoch.ExecutionsAreKept | src/application/history-accounting-epoch.ts:1075-1081 | Every execution observed in the epoch is selected. |
| Epoch.EpochIsCovered | src/application/history-accounting-epoch.ts:423-493 | Every instant of a reconciled epoch was queried for in all four sources. |
| EpochReasons.MatchReasonsMeaning | src/application/history-accounting-epoch.ts:689-750 | An execution mismatch is listed exactly when executions and trades of the epoch are not paired by a bijection of the same fills; a close mismatch exactly when a closed-PnL row is not closed by as many fills and fees as it states. |
| EpochReasons.ObservationReasonsMeaning | src/application/history-accounting-epoch.ts:1060-1145 | What a selected observation raises: unknown time, a time during a capture, or what its transaction raises. |
| EpochReasons.ReasonsAreDeserved | src/application/history-accounting-epoch.ts:890-1202 | Every reason code of every projection is listed exactly under its own condition on the anchors, wallets, checkpoints, conflicts and selected transactions, with or without an epoch. |
| EpochReasons.ReportDecides | src/application/history-accounting-epoch.ts:565-639 | The bridges reported are those of the currencies that occur, with the amounts held and credited, and decide three codes: unexplained drift exactly when some bridge has both balances and the change and closing is not opening plus change; unsupported currency exactly when one is not of USDT; missing balance exactly when one reports none or there is none for USDT. |
| EpochOrder.ProjectionIgnoresOrder | src/application/history-accounting-epoch.ts:890-1202 | With distinct IDs there is one projection, field by field, of all listings of the same observations, conflicts and checkpoints. |
| EpochOrder.ExactGapsAreUnique | src/application/history-accounting-epoch.ts:468-485 | Exact gaps are determined by the points they hold. |
| EpochReport.IsEpochProjection | src/application/history-accounting-report.ts:303-398 | The validator's loop accepts exactly the valid projections: each source once, gap rows consistent, canonical amounts, a ready one covered and balanced. |
| EpochReport.UsdtBridgeIsReady | src/application/history-accounting-report-common.ts:90-114 | A balanced, fully known bridge passes the bridge predicate with every amount present and drift "0". |
| EpochReport.ReconciledIsValid | src/application/history-accounting-report.ts:303-398 | Every RECONCILED projection passes the validator. |
| Performance.Collect | src/application/history-accounting-performance.ts:491-512 | Every key holds exactly its rows, in order, and every key is seen once. |
| Performance.MakeGroups | src/application/history-accounting-performance.ts:491-567 | One group for every key, summing up exactly its rows, in order; failure exactly when a group in one verified currency with all amounts stated has an amount that is no decimal. |
| Performance.KnownGroup | src/application/history-accounting-performance.ts:516-535 | A group's amount is known exactly when it has one verified currency and every amount, and is then their sum. |
| Performance.GroupMeaning | src/application/history-accounting-performance.ts:516-560 | Each reason of a group by its rows; unknown exactly without an amount, complete exactly without a reason, and with an amount only incomplete fees make it partial. |
| Performance.KeyByKey | src/application/history-accounting-performance.ts:491-567 | Adding up rows key by key is adding up the rows. |
| Performance.RollUp | src/application/history-accounting-performance.ts:837-842 | A known account day makes every amount of the day known at either finer level, in its currency, and each level sums to it. |
| DemoRecovery.ExpectedAccounting | src/application/demo-recovery.ts:295-392 | Accounting is expected exactly when the filled parent is stored, the counted fills add up to it and each has a ledger entry. |
| DemoRecovery.CountedFillsMeaning | src/application/demo-recovery.ts:352-377 | The fills counted are stored fills of the order with distinct IDs, and no stored ID of the order is left out. |
| DemoRecovery.AccountingMeaning | src/application/demo-recovery.ts:295-392 | Expected accounting means that the run's own order, as its intent asks for it, is stored as filled, and the numbers of distinct stored fills of it sum to its positive filled quantity. |
| DemoRecovery.StatusMeaning | src/domain/execution/reconciliation.ts:100-127 | For an order of the attempt exactly one status: reconciled if filled in full, pending if open or partially filled, partial if otherwise ended with something filled, failed if with nothing; an order not the attempt's is refused. |
| DemoRecovery.NoOrderMeaning | src/domain/execution/reconciliation.ts:85-99 | Without an order only a rejected attempt has failed; any other stays unresolved. |
| DemoRecovery.CandidateMeaning | src/application/demo-recovery.ts:212-236 | An order is a candidate exactly when it is of the attempt's client ID, asks for what the intent does and was not observed before the attempt. |
| DemoRecovery.ProtectionMeaning | src/application/demo-recovery.ts:427-440 | A child protects exactly when it is an open take-profit of the entry, on the other side, over its full quantity with nothing filled. |
| DemoRecovery.StoredProtection | src/application/demo-recovery.ts:394-425 | Expected protection means that the protection of the run's own intent is stored under its lineage. |
| RecoverRuns.ReadLeverages | src/application/demo-recovery.ts:467-477 | A run without owned intent counts as safe only after leverage 1 was read back for every instrument. |
| RecoverRuns.LocateOrder | src/application/demo-recovery.ts:535-670 | An order is located only when it was asked for by the client ID of the run's attempt and matches it, under the exchange ID known of the attempt or newly bound to it; every other way ends unresolved on record or fails. |
| RecoverRuns.AttemptOf | src/application/demo-recovery.ts:496-534 | The attempt reconciled is the run's only attempt of its owned intent, or one recorded now under the intent's client ID. |
| RecoverRuns.OwnOrderIsAskedFor | src/application/demo-recovery.ts:496-661 | The order a recovery rests on has the client ID of an attempt of the run's owned intent, or of the intent itself if there was no attempt. |
| RecoverRuns.RecordObservation | src/application/demo-recovery.ts:185-210 | An observation counts as recorded only when it was stored, or the same evidence was read back. |
| RecoverRuns.ReconciledMeans | src/domain/execution/reconciliation.ts:92-130 | RECONCILED means the intent's order filled in its full quantity. |
| RecoverRuns.FailedHasEnded | src/domain/execution/reconciliation.ts:118-127 | A run recovered as failed on an order had that order read neither open nor partially filled, and with nothing filled. |
| RecoverRuns.CheckProtection | src/application/demo-recovery.ts:696-716 | Protection holds only if the order's children are listed, every one matches the entry and every one is on record. |
| RecoverRuns.CheckFills | src/application/demo-recovery.ts:717-744 | Accounting holds only if the order's fills are listed, add up to the filled quantity and were ingested for its attempt. |
| RecoverRuns.JudgeOrder | src/application/demo-recovery.ts:689-765 | The status is the one the recorded order shows, or unresolved for a filled one; RECONCILED only with protection and accounting proven. |
| RecoverRuns.ReconcileRun | src/application/demo-recovery.ts:456-784 | Recovery of a run writes nothing to the exchange and clears no HALT; RECONCILED and FAILED rest on recorded evidence of the run's own order, and whatever status an owned run is given is on record and is what that order shows, or unresolved. |
| RecoverRuns.Conclude | src/application/demo-recovery.ts:442-454 | A status is only returned once its reconciliation is recorded for the lineage. |
| RecoverRuns.AllLineagesSafe | src/application/demo-recovery.ts:786-816 | True only when every lineage is safe: leverage 1 everywhere, FAILED, or RECONCILED with accounting and protection proven. |
| RecoverRuns.ClearHaltIfSafe | src/application/demo-recovery.ts:818-851 | HALT is cleared only directly after it was read active and every recorded lineage was found safe: in between only leverage and the clock are read. |
| RecoverRuns.RecoverEach | src/application/demo-recovery.ts:860-878 | Every run is counted once as reconciled or blocked, and every run outside the unresolved lineages is recovered on evidence of its own order. |
| RecoverRuns.RecoverPriorRuns | src/application/demo-recovery.ts:853-890 | Recovery makes no exchange write; every run read was recovered but for the unresolved lineages it lists, and it is safe to proceed only if there are none and HALT was last read inactive. |
| DemoEntry.AtMostOneEach | src/application/demo-entry-use-case.ts:564-834 | A safe trace sets leverage at most once and creates at most one order, in this order. |
| DemoEntry.DemoEntryUseCase.AcquireAndRecover | src/application/demo-entry-use-case.ts:394-430 | It succeeds only after the runs recorded at lease time were all recovered. |
| DemoEntry.DemoEntryUseCase.FenceForWrite | src/application/demo-entry-use-case.ts:432-472 | It succeeds only with the approval unexpired, HALT read clear and the lease renewed, as the last three calls. |
| DemoEntry.DemoEntryUseCase.ReadOrHalt | src/application/demo-entry-use-case.ts:600-651 | Leads on only with a reading still as approved; every stop it reports has raised HALT. |
| DemoEntry.DemoEntryUseCase.PrepareWrite | src/application/demo-entry-use-case.ts:576-681 | Only a reading that is still as approved and a durable lineage lead on to a write. |
| DemoEntry.DemoEntryUseCase.EnsureLeverage | src/application/demo-entry-use-case.ts:683-766 | At most one leverage write, behind a fence; it leads on only with leverage read back as 1. |
| DemoEntry.DemoEntryUseCase.RereadLeverage | src/application/demo-entry-use-case.ts:701-766 | Leads on only with leverage read back as 1 in a reading still as approved; every stop it reports has raised HALT. |
| DemoEntry.DemoEntryUseCase.Dispatch | src/application/demo-entry-use-case.ts:768-796 | One order, after the durable intent and directly behind a fence; every stop before it leaves no order. |
| DemoEntry.DemoEntryUseCase.RecordRejection | src/application/demo-entry-use-case.ts:836-860 | A refused order is reported only after FAILED was recorded for its lineage and the lease released. |
| DemoEntry.DemoEntryUseCase.RecordAttempt | src/application/demo-entry-use-case.ts:797-835 | The attempt appended carries what the order call answered: its acknowledgement and exchange ID, rejected without ID exactly for a refusal other than by transport, pending without ID exactly for a transport failure; submitted when the fence read the clock. |
| DemoEntry.BaselineMeaning | src/application/demo-entry-use-case.ts:139-178 | Two readings have one baseline exactly when each position and open order of the instrument is in both as often. |
| DemoEntry.DemoEntryUseCase.FinishOrder | src/application/demo-entry-use-case.ts:797-952 | Confirmed filled only after every recorded run was recovered and the lineage read as RECONCILED; any outcome is a recorded refusal or the verdict its latest status calls for, with an attempt on record that says what the exchange answered. |
| DemoEntry.DemoEntryUseCase.ConfirmFilled | src/application/demo-entry-use-case.ts:923-951 | A reconciled order is confirmed filled exactly when recovery found it safe to proceed and HALT reads inactive, after the lease is released. |
| DemoEntry.DemoEntryUseCase.Execute | src/application/demo-entry-use-case.ts:564-952 | In every run, whatever each port answers, writes are safe and HALT is cleared only safely; declined means no order, confirmed filled means ordered and then recovered; any outcome of an order has an attempt on record that says what the exchange answered, and is a recorded refusal or the verdict its latest status, read after the order, calls for. |
| Keychain.HeldIsLoaded | src/adapters/macos-keychain.ts:430-444 | Three valid values are held exactly when a readable load returns them. |
| Keychain.MacOsKeychain.WriteAndVerifyValue | src/adapters/macos-keychain.ts:244-273 | An exact match means the value is stored, whatever the add reported. |
| Keychain.MacOsKeychain.ReadCredentialStates | src/adapters/macos-keychain.ts:275-302 | Each state reported is the stored one or a failure to read. |
| Keychain.MacOsKeychain.SnapshotBeforeMutation | src/adapters/macos-keychain.ts:304-336 | A complete snapshot is what is held; a set that is not restorable could not be loaded. |
| Keychain.MacOsKeychain.RestoreCompleteSnapshot | src/adapters/macos-keychain.ts:350-362 | Restored means the snapshot is held again. |
| Keychain.MacOsKeychain.ClearAndVerifyAbsent | src/adapters/macos-keychain.ts:386-394 | Cleared means all three records are absent. |
| Keychain.MacOsKeychain.Save | src/adapters/macos-keychain.ts:446-493 | All three new values, or what load returned before, or all absent, or the explicit incomplete rollback; refused as unsupported exactly off macOS, and as invalid exactly on macOS with invalid credentials; other records untouched. |
| Ingestion.FactStore.Ingest | src/application/accounting-ingestion.ts:269-276 | The store contract: the first fact of an identity stays, a different one is refused, a failure may or may not have stored it. |
| Ingestion.IngestFill | src/application/accounting-ingestion.ts:283-431 | The facts of a fill are stored in order up to the first failure; success stores all of them; an invalid fill stores none. |
| Ingestion.IngestAll | src/application/demo-entry-use-case.ts:321-350 | Fills are stored in order up to the first failure, and the three counts returned are the fills, fees and ledger entries added. |
| Ingestion.OwnIdentities | src/application/accounting-ingestion.ts:196-217 | The facts of one execution have identities of their own. |
| Ingestion.FillFactsConsistent | src/application/accounting-ingestion.ts:196-217 | Fills reported alike give every identity one body. |
| Ingestion.PutAllMeaning | src/application/accounting-ingestion.ts:269-276 | Storing consistent facts adds exactly those whose identity is free. |
| Ingestion.Replays | src/application/accounting-ingestion.ts:283-431 | After any earlier partial ingests of the same facts, one complete ingest leaves what it alone would leave. |
| Ingestion.AttemptsVanish | src/application/accounting-ingestion.ts:283-431 | What any sequence of ingests of these fills or some of them leaves, each as far as it got, makes no difference to a complete ingest. |
| Ingestion.CompleteIngest | src/application/demo-entry-use-case.ts:321-350 | After any number of ingests that stopped anywhere, one that succeeds leaves the store it alone would leave. |
| Ingestion.SignedAmountMeaning | src/application/accounting-ingestion.ts:219-230 | A fill's ledger amount is its notional, negative for a buy. |
| Ingestion.StoredReports | src/application/accounting-ingestion.ts:283-431 | Once stored completely, every execution is reported as it was filled, and its fill and fee are booked with their sign against what reports them. |
| Ingestion.LedgerTotal | src/application/accounting-ingestion.ts:283-431 | In every currency the ledger adds up to sells less buys less fees, each execution counted once however often listed. |
| Exposure.ExpectedDelta | scripts/bybit-probe/cleanup.ts:93-119 | The expected delta is the signed sum of the executions; it exists exactly when they are identified, distinct and readable and each is within the scale limit of the sum before it. |
| Exposure.SignedMeaning | scripts/bybit-probe/cleanup.ts:88-91 | A buy adds its quantity to the position and a sell takes it off; it is readable exactly when the quantity parses. |
| Exposure.DeriveOwnedExposure | scripts/bybit-probe/cleanup.ts:93-151 | It throws exactly when the last two operations exceed the scale limit; otherwise it is owned or flat exactly when distinct executions explain the position and can each be added; flattening returns exactly to the baseline, and the remaining quantity printed is the distance to it. |
| Exposure.ThrowsOnPositions | scripts/bybit-probe/cleanup.ts:130 | A position beyond the scale limit and a flat baseline throw. |
| Exposure.ThrowsOnChange | scripts/bybit-probe/cleanup.ts:131 | Positions of equal scale throw when their difference is too far from the total of the executions. |
| Exposure.ExplainedUnresolved | scripts/bybit-probe/cleanup.ts:113-117 | A position explained in full stays unresolved when an execution cannot be added. |
| ProbeRecovery.SelectedOrder | scripts/bybit-probe/scenarios.ts:121-182 | The order selected matches the identity and is the only match or the only active one. |
| ProbeRecovery.ReconcileOrder | scripts/bybit-probe/scenarios.ts:209-294 | Bounded lookups; ended only when the last reading shows the order terminal, resting exactly when two readings showed an order that is not, otherwise unresolved. |
| ProbeRecovery.ProveCleanState | scripts/bybit-probe/cleanup.ts:202-238 | Clean only after no open order and then only flat positions were read. |
| ProbeRecovery.PostAndProve | scripts/bybit-probe/cleanup.ts:329-373 | Only a cleanup of what the run owns is posted, directly after its approval was re-verified; confirmed clean only after a clean reading. |
| ProbeRecovery.CleanupOwnedEntry | scripts/bybit-probe/cleanup.ts:260-373 | An owned entry already terminal is reported flat without a call, and only that is; an entry not owned is unresolved without a call. What is posted cancels an order of a saved intent read resting and still listed; an entry not yet terminal counts as cleaned only after a clean reading. |
| ProbeRecovery.CancelPlanMeaning | scripts/bybit-probe/cleanup.ts:280-297 | A cancel plan asks to cancel the very order, by both its IDs. |
| ProbeRecovery.FlattenOwnedExposure | scripts/bybit-probe/cleanup.ts:387-546 | What is posted returns a position explained by the run's own executions to its baseline, read twice alike; it counts as done only after a clean reading. |
| ProbeRecovery.FlattenPlanMeaning | scripts/bybit-probe/cleanup.ts:432-452 | A flatten plan asks for a market order that only reduces, on the side and over the quantity of the exposure. |
| ProbeRecovery.SettleIntent | scripts/bybit-probe/recovery.ts:194-372 | An intent is settled only when its order was looked up and its symbol afterwards read clean. |
| ProbeRecovery.JudgeRun | scripts/bybit-probe/recovery.ts:151-382 | Resolved only if every intent matches account and digest and all are settled in turn, each in a part of the trace of its own, and then confirmed clean unless a contradiction was found earlier. |
| ProbeRecovery.RecoverInterruptedRun | scripts/bybit-probe/recovery.ts:110-399 | Every write is an approved, stored and re-verified cleanup of what the saved run owns; confirmed clean only if already so or with every intent matching and read clean after its own reconciliation; other verdicts of a saved run are written. |

## Left out

- Transports, signing, sessions, prompts, command lines, SQLite and file storage: the journal, the fact store and the probe store are represented by the calls made of them.
- Mutual exclusion of the probe's lock file under a stale takeover is not claimed.
- The scoped (v2) selection, exclusions and currencies, apart from the coverage witness and its agreement with the epoch sweep.
- The performance projection apart from the roll-ups: ownership evidence, currency evidence and position PnL.
- Attribution of observations to lineages and the encoding of stored artifacts.
- Plan preparation of the guarded entry (`prepare`), and the trust check of capabilities, which is a choice the model leaves open.
- Clock readings that only stamp a record appear in the trace where the entry itself makes them, not inside record building.
- Error messages, next-action texts and the outcome fields derived from them; frozen objects, prototype and descriptor checks; extra keys of a scope.
- Case mapping and trimming of the provider's transaction type: a transaction holds its type trimmed and in upper case.
- Lone surrogates, UTF-16 key order, integers of 1e21 and beyond, and non-integer numbers in canonical text.
- The conflict locations that the v2 witness checks besides coverage.
- Real identifier grammar: an identifier is a string. Digests cut short are taken to be injective like whole ones.
- UnqueriedWindows: asks for windows with from <= to, which the history store guarantees of its checkpoints.
- ProbeRecovery.ReconcileOrder: counts two resting readings and does not claim that they are of one order, because the code compares no identities between readings.
- The link ID of a flatten order, which is left open, and the waits between lookups.

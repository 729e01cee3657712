# Rustler ledger, rule engine and importer, in Dafny

This project models the core of Rustler, a personal-finance backend, and of
its Firefly III companion client. Four parts are modelled:

- **The double-entry ledger** (`TransactionService`). Every transaction moves
  its amount from a source account to a destination account.
  - Create, update and delete each run as one database transaction: they
    compute a new state, or return an error and keep the old one.
  - A destination may be resolved by name. An unknown name creates an
    `External` account with balance 0.
  - Categories are resolved through `CategoryService` on the pool, outside
    the rollback scope.
- **The rule engine** (`RuleService` over the types of `models/rule.rs`).
  - Ten condition kinds, combined with AND.
  - Four action kinds, folded in ascending priority into an update patch.
  - `test_conditions`, and the two batch "apply to all transactions" loops.
- **The orchestrator** (`TransactionRuleService`): a ledger write, then rule
  evaluation, then a best-effort second write.
- **Helpers**:
  - `parse_account_type`;
  - the Firefly import mapping and counters;
  - the Firefly client's retry and backoff policy and its balance-sampling
    date schedules.

The database is a `Store.Database` class whose fields are the accounts,
transactions, categories and rules tables, held as maps. An open database
transaction is a `Store.Session`, a copy of the ledger tables that
`Commit` writes back. No modelled operation changes the `budgets` or the
`category_groups` table, so the database holds only the constant set of
the ids of each.

Two invariants are preserved across every operation:

- the foreign keys of a transaction row hold: its source and destination
  accounts exist (`fk_source_account`, `fk_destination_account`), and so does
  its budget when it names one (`fk_budget`). The category key
  (`fk_category`) is not part of the invariant (see "Left out");
- the group of a category exists when it names one (`fk_category_group`,
  src/db/category_groups_migration.rs:78);
- double entry holds: every balance equals its opening balance plus the net
  flow of the recorded transactions. It follows that the sum of all
  balances never changes.

Amounts are `real`, wrapped in an `F64` datatype with `Finite`, `PosInf`, `NegInf`
and `NaN` cases. Ids are 128-bit `Uuid` values with their hyphenated
lower-case text form. Fresh ids and the current time are parameters.

Modules:

| file | module | models |
|---|---|---|
| base.dfy | Base | Option, Result, small sequence helpers |
| text.dfy | Text | lower-casing, trim, find, split and join on strings |
| uuid.dfy | Uuids | the UUID text form and its parser |
| floats.dfy | Floats | `f64` values, `parse::<f64>` and integer printing |
| calendar.dfy | Calendar | dates, date-times, day and month stepping |
| schema.dfy | Schema | the rows and requests of the services |
| balances.dfy | Balances | the balance effects and their arithmetic |
| store.dfy | Store | the database, sessions, and the ledger invariant |
| sorting.dfy | Sorting | the stable sort behind `ORDER BY` |
| category_service.dfy | CategoryService | the category service |
| transaction_service.dfy | TransactionService | create, update and delete of transactions |
| rule_model.dfy | RuleModel | condition and action kinds, their tags, `to_response` |
| rule_service.dfy | RuleService | rule evaluation, `test_conditions`, the batch loops |
| sql_text.dfy | SqlText | the UPDATE text the batch loops build, and the unescaped assignments of `update_transaction` and `update_category` |
| transaction_rule_service.dfy | TransactionRuleService | rule chaining after ledger writes |
| account_sub_type.dfy | AccountSubType | `parse_account_type` |
| firefly_import.dfy | FireflyImport | the Firefly import mapping and bookkeeping |
| firefly_client.dfy | FireflyClient | retry with backoff, and the balance-sampling schedules |

## Model

| member | source | states |
|---|---|---|
| AccountSubType.NonEmptyTrimmed | src/db/account_sub_type_migration.rs:105-108 | the kept pieces are no more than the input pieces, and each is non-empty and trimmed |
| AccountSubType.ParseAccountType | src/db/account_sub_type_migration.rs:86-119 | the main type is trimmed; a returned subtype is non-empty and trimmed, and only occurs when the trimmed input contains " - " |
| AccountSubType.SpecialCases | src/db/account_sub_type_migration.rs:87-97 | "" parses to ("", None); non-empty input that trims to "External" parses to ("External", None) |
| AccountSubType.ParsesTypeAndSubtype | src/db/account_sub_type_migration.rs:101-114 | two or more non-empty trimmed hyphen-free pieces joined by " - " parse to (first piece, Some(second piece)); later pieces are dropped |
| AccountSubType.BlankPieceSkipped | src/db/account_sub_type_migration.rs:104-114 | an empty piece between two separators is filtered out, so "a -  - b" still gives (a, Some(b)) |
| AccountSubType.NoSeparatorNoSubtype | src/db/account_sub_type_migration.rs:115-118 | non-empty input whose trimmed form has no hyphen parses to (trimmed input, None) |
| AccountSubType.SplitJoin | src/db/account_sub_type_migration.rs:101 | splitting a " - "-join of hyphen-free pieces on " - " gives the pieces back |
| AccountSubType.NonEmptyTrimmedKeeps | src/db/account_sub_type_migration.rs:104-107 | the trim-and-filter step keeps a list of non-empty trimmed pieces unchanged |
| AccountSubType.JoinTrimmed | src/db/account_sub_type_migration.rs:92 | a join of non-empty trimmed pieces is non-empty, trimmed, and starts with the first piece's first character |
| AccountSubType.NoHyphenNoSeparator | src/db/account_sub_type_migration.rs:101 | text without a hyphen contains no " - " |
| AccountSubType.FirstSeparatorAfter | src/db/account_sub_type_migration.rs:101 | in `a + " - " + rest` with a hyphen-free `a`, the first separator starts right after `a` |
| AccountSubType.HyphenNotExternal | src/db/account_sub_type_migration.rs:95 | text that contains a hyphen is not "External" |
| AccountSubType.NonEmptyTrimmedSkipsBlank | src/db/account_sub_type_migration.rs:104-107 | the pieces [a, "", b] filter to [a, b] |
| AccountSubType.SeparatorHyphen | src/db/account_sub_type_migration.rs:101 | every occurrence of the " - " separator puts a hyphen in the text |
| AccountSubType.NonEmptyTrimmedDropsBlank | src/db/account_sub_type_migration.rs:104-107 | a blank first piece is dropped |
| AccountSubType.NonEmptyTrimmedKeepsHead | src/db/account_sub_type_migration.rs:104-107 | a non-empty trimmed first piece is kept |
| Balances.Abs | src/services/transaction_service.rs:604 | the result is non-negative and equals x or -x |
| Balances.Adjust | src/services/transaction_service.rs:609-620 | one balance UPDATE adds the delta to that account only; an unknown id changes nothing |
| Balances.BalanceMap | src/services/transaction_service.rs:598-739 | the balance of every account, keyed by id |
| Balances.ApplyEffectIsDelta | src/services/transaction_service.rs:668-739 | in both sign branches, applying an effect changes each account by the same signed delta: minus the amount at the source, plus the amount at the destination |
| Balances.ReverseEffectIsDelta | src/services/transaction_service.rs:598-665 | reversing changes each account by minus that delta, in both sign branches |
| Balances.DeltasCancel | src/services/transaction_service.rs:353-363 | for distinct accounts, the source changes by -amount and the destination by +amount; the two sum to zero and no other account changes |
| Balances.ReverseUndoesApply | src/services/transaction_service.rs:598-739 | reverse after apply, and apply after reverse, of the same (source, destination, amount) give back the original balances |
| Balances.ReverseAfterApply | src/services/transaction_service.rs:598-739 | reversing a transaction's effect after applying it restores every balance |
| Balances.ApplyAfterReverse | src/services/transaction_service.rs:598-739 | applying a transaction's effect after reversing it restores every balance |
| Balances.AdjustTotal | src/services/transaction_service.rs:609-620 | one balance UPDATE on an existing account changes the total by exactly the delta |
| Balances.ApplyPreservesTotal | src/services/transaction_service.rs:668-739 | applying an effect between existing accounts keeps the sum of all balances |
| Balances.ReversePreservesTotal | src/services/transaction_service.rs:598-665 | reversing an effect between existing accounts keeps the sum of all balances |
| Balances.TransferTotal | src/services/transaction_service.rs:365-429 | moving x out of one existing account and into another keeps the total |
| Balances.NewAccountTotal | src/services/transaction_service.rs:288-301 | adding a new account with balance 0 keeps the total |
| Balances.SumRemove | src/services/transaction_service.rs:598-739 | the sum of a map's values is one entry plus the sum of the rest |
| Balances.SumUpdate | src/services/transaction_service.rs:598-739 | overwriting or adding one entry changes the sum by the difference |
| Balances.SumOfZeros | src/services/transaction_service.rs:598-739 | a map of zeros sums to zero |
| Balances.FlowMap | src/services/transaction_service.rs:598-739 | for each recorded transaction, its delta on account a |
| Balances.NetFlowIsSum | src/services/transaction_service.rs:598-739 | the net flow into an account is the sum of the per-transaction deltas, whatever order they are visited in |
| Balances.NetFlowUpdate | src/services/transaction_service.rs:551-558 | recording or replacing one transaction changes the net flow by its new delta, minus the old one when it replaces |
| Balances.NetFlowRemove | src/services/transaction_service.rs:579-586 | removing a transaction removes its delta from the net flow |
| Balances.NetFlowUnreferenced | src/services/transaction_service.rs:288-301 | an account no transaction mentions has zero net flow |
| Balances.NetFlowIgnoresOtherFields | src/services/category_service.rs:129-132 | rewriting fields other than the two accounts and the amount leaves every net flow unchanged |
| Balances.BalancedIgnoresOtherFields | src/services/category_service.rs:129-132 | such a rewrite keeps double entry |
| Balances.BalancedAfterNewAccount | src/services/transaction_service.rs:288-301 | a new unreferenced account with balance 0 keeps double entry, with opening balance 0 |
| Balances.BalancedAfterRecord | src/services/transaction_service.rs:330-429 | recording a new transaction and applying its effect keeps double entry |
| Balances.BalancedAfterRemove | src/services/transaction_service.rs:579-586 | removing a transaction and reversing its effect keeps double entry |
| Store.Database.constructor | src/db/migrations.rs:78-79 | a database whose tables satisfy the key, account, budget and category-group foreign-key and unique-name constraints is valid; each account's opening balance is its balance minus the net flow of the recorded transactions |
| Store.ForeignKeysAfterRecord | src/db/migrations.rs:78-79 | recording a transaction between existing accounts keeps the account foreign keys |
| Store.BudgetKeysAfterWrite | src/db/migrations.rs:382 | writing a row whose budget is NULL or exists keeps the budget key of every row |
| Store.LedgerAfterNewAccount | src/services/transaction_service.rs:288-301 | inserting a new External account with balance 0 keeps the ledger valid |
| Store.LedgerAfterRecord | src/services/transaction_service.rs:330-429 | recording a transaction between existing accounts, with its effect applied, keeps the ledger valid |
| Store.LedgerAfterRecordTotal | src/services/transaction_service.rs:330-429 | the same, and the total balance is unchanged |
| Store.LedgerAfterRecordToNewAccount | src/services/transaction_service.rs:284-429 | recording a transaction into a just-created account keeps the ledger valid and the total unchanged |
| Store.LedgerAfterReplace | src/services/transaction_service.rs:447-558 | replacing a row by one with the same source, with the old effect reversed and the new one applied, keeps the ledger valid and the total unchanged |
| Store.LedgerAfterReplaceToNewAccount | src/services/transaction_service.rs:519-558 | the same when the new destination is a just-created account with balance 0 |
| Store.ReplaceIsRemoveThenAdd | src/services/transaction_service.rs:551-558 | overwriting a row is the same as removing it and adding the new one |
| Store.LedgerAfterRemove | src/services/transaction_service.rs:579-586 | deleting a row and reversing its effect keeps the ledger valid |
| Store.LedgerAfterRemoveTotal | src/services/transaction_service.rs:579-586 | the same, with the account keys and the total unchanged |
| Store.LedgerIgnoresOtherFields | src/services/category_service.rs:129-132 | rewriting fields other than ids, accounts and amounts keeps the ledger valid |
| Store.ScanKeys | src/services/rule_service.rs:187-194 | a scan of a table lists every key exactly once, in some order |
| Store.Session.Begin | src/services/transaction_service.rs:262 | an open database transaction starts as a copy of the ledger tables, and sees the same budgets |
| Store.Session.UpdateBalance | src/services/transaction_service.rs:370-381 | adds the delta to one balance; reports 1 row affected for a known id and 0 otherwise |
| Store.Session.FindAccountByName | src/services/transaction_service.rs:277-282 | returns an account of exactly that name, or None exactly when there is none |
| Store.Session.AccountName | src/services/transaction_service.rs:312-319 | returns the account's name, or None for an unknown id |
| Store.Session.InsertExternalAccount | src/services/transaction_service.rs:288-301 | inserts an External USD account with balance 0, or fails with a unique violation when the id is taken |
| Store.Session.InsertTransaction | src/services/transaction_service.rs:331-351 | inserts the row if its id is new, both accounts exist and its budget is NULL or exists; otherwise a unique or foreign-key violation and no change |
| Store.Session.UpdateTransactionRow | src/services/transaction_service.rs:551-555 | an unknown id gives None; a row whose accounts and budget exist is written; otherwise a foreign-key violation and no change |
| Store.Session.DeleteTransactionRow | src/services/transaction_service.rs:580-583 | removes the row, reporting 1 row affected if it existed and 0 otherwise |
| Store.Session.ReverseBalanceEffects | src/services/transaction_service.rs:598-665 | the accounts become the reversed effect of the transaction; row counts are not checked |
| Store.Session.ApplyBalanceEffects | src/services/transaction_service.rs:668-739 | the accounts become the applied effect; row counts are not checked |
| Store.Session.Commit | src/services/transaction_service.rs:432 | the session's tables become the database's, and the database stays valid, budget and group keys included |
| CategoryService.CategoryNamed | src/services/category_service.rs:27-30 | returns the id of a category with exactly that name, or None exactly when there is none |
| CategoryService.CreateCategory | src/services/category_service.rs:56-74 | inserts the category with a fresh id, the given fields and both timestamps now; a taken id or a taken name is a unique violation, otherwise a group that does not exist is a foreign-key violation (`fk_category_group`), and exactly these fail, changing nothing |
| CategoryService.FindOrCreateCategory | src/services/category_service.rs:25-45 | an existing category of that name is returned and nothing is inserted; otherwise a new one with no description and no group is inserted; on success it is the only category of that name, so a second call returns the same id |
| CategoryService.UpdateCategory | src/services/category_service.rs:77-114 | an unknown id gives None; otherwise only the supplied fields and `updated_at` change, as the statement with the name escaped would do (see Findings); a name taken by another category is a unique violation, and otherwise a group id that names no category group is a foreign-key violation (`fk_category_group`); both change nothing |
| CategoryService.ClearCategory | src/services/category_service.rs:129-132 | same keys; rows referencing the category lose their category_id and all others are unchanged |
| CategoryService.ClearCategoryReferences | src/services/category_service.rs:128-132 | the transactions become ClearCategory of the old ones; the ledger stays valid |
| CategoryService.RemoveCategoryRow | src/services/category_service.rs:134-140 | removes the category, reporting 1 row affected if it existed |
| CategoryService.DeleteCategory | src/services/category_service.rs:117-146 | an unknown id gives false and changes nothing; otherwise every referencing transaction loses its category_id, the category is removed, and nothing references it any more |
| TransactionService.ExternalAccount | src/services/transaction_service.rs:290-294 | the account created for an unknown name is External, has balance 0 and has exactly that name |
| TransactionService.WithAccount | src/services/transaction_service.rs:288-301 | the table gains the new id and keeps every existing row unchanged |
| TransactionService.ApplyCheckedEffects | src/services/transaction_service.rs:365-429 | no error exactly when both accounts exist, and then the effect is applied; a missing source or destination gives the matching invariant-violation error |
| TransactionService.ResolveByName | src/services/transaction_service.rs:276-304 | an account of that name is reused, or an External account with balance 0 is inserted; it fails only when it must insert and the new id is taken |
| TransactionService.CreateInSession | src/services/transaction_service.rs:269-432 | the session ends in the state CreateOutcome describes for the chosen destination, or its error |
| TransactionService.CreateTransaction | src/services/transaction_service.rs:257-435 | the category is resolved first and stays even on failure; on failure no transaction row and no balance change is committed; the database stays valid and the total balance never changes |
| TransactionService.CreateKeepsLedger | src/services/transaction_service.rs:330-432 | a successful create keeps the ledger valid, every budget key, and the total balance unchanged |
| TransactionService.CreateRejectsInvalidAmount | src/services/transaction_service.rs:323-325 | create fails with the invalid-amount error exactly when the amount is zero or not finite |
| TransactionService.CreateRejectsSameAccount | src/services/transaction_service.rs:326-328 | for a valid amount, create fails with the same-account error exactly when the source equals the resolved destination |
| TransactionService.CreateSucceeds | src/services/transaction_service.rs:322-435 | with no id collision, a valid amount, distinct accounts, an existing source and a budget that is NULL or exists, create succeeds |
| TransactionService.CreateRejectsUnknownBudget | src/services/transaction_service.rs:333-346 | a budget id that names no budget makes the INSERT fail, so create fails |
| TransactionService.CreateRecords | src/services/transaction_service.rs:269-351 | the new row carries the requested fields and the resolved destination; the stored destination_name is the supplied name, else the destination account's name, else ""; a new External account is added only when the name was unknown |
| TransactionService.CreateMovesAmount | src/services/transaction_service.rs:365-429 | a successful create moves -amount at the source and +amount at the destination, the two sum to zero, and every other account is unchanged |
| TransactionService.WriteInSession | src/services/transaction_service.rs:543-558 | the session ends as WriteOutcome says: the patched row written and the new effect applied, or the statement error, or a foreign-key error for a missing account or budget |
| TransactionService.UpdateInSession | src/services/transaction_service.rs:447-564 | reverses the old effect, resolves the destination (id, name or unchanged), writes the patched row and applies the new effect, as UpdateOutcome says |
| TransactionService.UpdateTransaction | src/services/transaction_service.rs:438-567 | an unknown id gives None and changes nothing; otherwise the write commits only on success; with the row written as the statement with its text escaped would write it (see Findings), the database stays valid and the total balance never changes |
| TransactionService.UpdateKeepsLedger | src/services/transaction_service.rs:447-561 | a successful update keeps the ledger valid, every budget key, and the total balance unchanged |
| TransactionService.UpdateOutcomeShape | src/services/transaction_service.rs:447-558 | a successful update's balances are: the old effect reversed, possibly a new External account, then the effect of (original source, new destination, new amount) |
| TransactionService.UpdateKeepsBalancesWhenMoneyUnchanged | src/services/transaction_service.rs:448-558 | an update that changes neither the amount nor the destination leaves every balance unchanged |
| TransactionService.UpdateRecords | src/services/transaction_service.rs:455-547 | the written row keeps its id, source and creation time; supplied fields replace the old ones, the others stay |
| TransactionService.UpdateSkipsValidation | src/services/transaction_service.rs:455-458 | update accepts an amount of zero and a destination equal to the source, which create rejects |
| TransactionService.UpdateRejectsNonFinite | src/services/transaction_service.rs:459-461 | a non-finite amount makes the UPDATE statement invalid, so update fails and commits nothing |
| TransactionService.UpdateRejectsUnknownBudget | src/services/transaction_service.rs:478-479 | setting a budget id that names no budget makes the UPDATE fail, so update fails and commits nothing |
| TransactionService.MonthWindow | src/services/transaction_service.rs:18-31 | a window exists exactly for months 1 to 12, and it starts before it ends |
| TransactionService.MonthWindowSelects | src/services/transaction_service.rs:18-37 | a date-time lies in [start, end) exactly when it falls in that year and month |
| TransactionService.MonthWindowsTile | src/services/transaction_service.rs:23-27 | each window ends where the next month's window starts; December rolls over to January of the next year |
| TransactionService.DeleteTransaction | src/services/transaction_service.rs:570-595 | an unknown id gives false and changes nothing; otherwise the row is removed and its effect reversed; the total balance never changes |
| RuleModel.ConditionTypesAreTen | src/models/rule.rs:9-30 | there are exactly ten condition kinds, listed once each |
| RuleModel.ActionTypesAreFour | src/models/rule.rs:35-44 | there are exactly four action kinds, listed once each |
| RuleModel.ConditionTagRoundTrip | src/models/rule.rs:8-30 | decoding a condition kind's snake_case tag gives the kind back, and a tag that decodes is the tag of what it decodes to |
| RuleModel.ConditionTagDecodes | src/models/rule.rs:8-30 | every condition kind's tag decodes to that kind |
| RuleModel.DecodedConditionTag | src/models/rule.rs:8-30 | a tag that decodes is exactly the tag of its kind |
| RuleModel.ActionTagRoundTrip | src/models/rule.rs:34-44 | the same two directions for the four action tags |
| RuleModel.ConditionTagInjective | src/models/rule.rs:8-30 | two condition kinds with the same tag are the same kind |
| RuleModel.DecodeConditions | src/models/rule.rs:155 | the conditions JSON decodes exactly when it is a list whose every tag names a condition kind, and then gives one condition per element |
| RuleModel.EncodeConditions | src/models/rule.rs:47-53 | serialising conditions gives a list with one element per condition |
| RuleModel.DecodeActions | src/models/rule.rs:156 | the actions JSON decodes exactly when it is a list whose every tag names an action kind, and then gives one action per element |
| RuleModel.EncodeActions | src/models/rule.rs:55-62 | serialising actions gives a list with one element per action |
| RuleModel.ConditionsRoundTrip | src/models/rule.rs:47-53 | serialised conditions decode to themselves, and decoded JSON serialises back to the same JSON |
| RuleModel.ActionsRoundTrip | src/models/rule.rs:55-62 | the same for actions |
| RuleModel.ToResponse | src/models/rule.rs:154-170 | fails exactly when either JSON column fails to decode; on success copies id, name, description, is_active, priority, group_id and both timestamps, with the decoded conditions and actions |
| RuleModel.ToResponseOfEncoded | src/models/rule.rs:154-170 | a rule stored from serialised conditions and actions converts back to exactly those |
| RuleService.AmountConditionsOnNat | src/services/rule_service.rs:678-695 | against the printed form of a natural number n, GreaterThan holds iff amount > n, LessThan iff amount < n, and Equals iff the amount is within 0.001 of n |
| RuleService.UnparsedAmountNeverHolds | src/services/rule_service.rs:678-695 | an amount condition whose value does not parse as an f64 never holds |
| RuleService.NonFiniteAmountNeverEqual | src/services/rule_service.rs:690-694 | Equals against an infinite or NaN value never holds |
| RuleService.TextConditionsIgnoreCase | src/services/rule_service.rs:651-677 | description and destination-name conditions give the same answer when the value or the description is lower-cased first |
| RuleService.NoDestinationNameNeverMatches | src/services/rule_service.rs:666-677 | destination-name conditions are false when the transaction has no destination name |
| RuleService.UpperCaseIdNeverMatches | src/services/rule_service.rs:660-665 | account-id conditions compare the id's lower-case string form exactly, so a value with an upper-case letter never matches |
| RuleService.LastWriter | src/services/rule_service.rs:703-725 | finds the last action that writes a field: it writes, and no later action does; None when none does |
| RuleService.LastCategoryWins | src/services/rule_service.rs:705-707 | after folding actions, the category is the value of the last SetCategory, or the previous category when there is none |
| RuleService.LastBudgetWins | src/services/rule_service.rs:708-718 | the budget is that of the last SetBudget whose value parses as a UUID; unparseable ones leave it unchanged |
| RuleService.LastDescriptionWins | src/services/rule_service.rs:719-721 | the description is the value of the last SetDescription, or the previous one |
| RuleService.LastDestinationNameWins | src/services/rule_service.rs:722-724 | the destination name is the value of the last SetDestinationName, or the previous one |
| RuleService.ActionsKeepOtherFields | src/services/rule_service.rs:703-725 | actions never set the amount, the destination account or the date |
| RuleService.LastActionWins | src/services/rule_service.rs:703-726 | all five of the above at once: each rule field holds its last writer's value, and the other three fields stay |
| RuleService.ApplyActionsAppend | src/services/rule_service.rs:703-726 | folding a + b is folding a, then b |
| RuleService.EvaluatePatchIsFold | src/services/rule_service.rs:630-730 | the loop's patch is the actions of the applying rules, concatenated in fetch order, folded into the empty patch |
| RuleService.EvaluateAnyApplied | src/services/rule_service.rs:627-736 | `any_rule_applied` ends true exactly when some fetched rule decodes and matches |
| RuleService.RulesOutcomeSpec | src/services/rule_service.rs:612-736 | the outcome is Some exactly when some rule applies, even if its patch sets no field; the patch is the fold of the applying rules' actions and never sets amount, destination id or date; no rules gives None |
| RuleService.EmptyConditionsMatchAll | src/services/rule_service.rs:649-700 | a decodable rule with no conditions applies to every transaction, so the outcome is a patch |
| RuleService.FetchActiveRules | src/services/rule_service.rs:608 | the fetched list holds every active rule once and nothing else, sorted by ascending priority |
| RuleService.CollectActive | src/services/rule_service.rs:608 | the rows kept are exactly the active rules, each once |
| RuleService.ActiveRows | src/services/rule_service.rs:608 | the active rows among a prefix of the keys: as many as there are active ids, all active, none missed |
| RuleService.ActiveAmongCount | src/services/rule_service.rs:608 | with distinct keys, the number of active ids in a prefix is the number of active rows there |
| RuleService.ActivePrefixAll | src/services/rule_service.rs:608 | over all the keys, the count of active rows is the number of active rules |
| RuleService.EvaluateRules | src/services/rule_service.rs:630-730 | the loop over rules and actions computes the patch and flag that Evaluate specifies |
| RuleService.ApplyRulesToTransaction | src/services/rule_service.rs:606-737 | returns RulesOutcome of a fetch of the active rules by ascending priority |
| RuleService.PriorityTiesAreUnordered | src/services/rule_service.rs:608 | there are rules, two valid fetch orders of them and a transaction for which the two outcomes differ: priority alone does not fix the result |
| RuleService.CategoryRuleApplies | src/services/rule_service.rs:649-707 | a rule without conditions that sets a category applies, and its actions decode to that one SetCategory |
| RuleService.OneCategoryRule | src/services/rule_service.rs:700-728 | evaluating that one rule sets the category and marks a rule applied |
| RuleService.LaterCategoryRuleWins | src/services/rule_service.rs:703-707 | of two such rules, the later one's category is the outcome |
| RuleService.TiedRulesEitherOrder | src/services/rule_service.rs:608 | two such rules of equal priority may be fetched in either order |
| RuleService.FetchTransactionsByDate | src/services/rule_service.rs:742-744 | the fetched list holds every transaction once and nothing else, newest first |
| RuleService.Matching | src/services/rule_service.rs:748-802 | the matching transactions, in fetch order: no more than were fetched, each one fetched and matching, none missed |
| RuleService.MatchingSnoc | src/services/rule_service.rs:799-801 | one more fetched transaction is appended exactly when it matches |
| RuleService.CollectMatching | src/services/rule_service.rs:746-802 | the loop pushes exactly the matching transactions, in order |
| RuleService.TestConditions | src/services/rule_service.rs:740-807 | returns the number of matches and the first min(100, that number) of them, from a fetch newest first |
| RuleService.TestConditionsSample | src/services/rule_service.rs:742-806 | the sample has at most 100 entries, each stored and matching; every stored match is counted; the matches are newest first |
| RuleService.MatchingSorted | src/services/rule_service.rs:742-801 | selecting matches from a newest-first list keeps it newest first |
| RuleService.PatchRow | src/services/rule_service.rs:194-218 | the batch UPDATE keeps id, accounts, amount, category_id and date; it sets the supplied rule fields and updated_at |
| RuleService.Rewritten | src/services/rule_service.rs:186-233 | the table after the batch keeps its keys; visited rows with a written patch are patched, all others unchanged |
| RuleService.RewrittenKeepsLedger | src/services/rule_service.rs:186-233 | the batch never touches accounts or amounts, so the ledger stays valid; it writes only budgets that exist, so every budget key still holds; rows not written are unchanged; at most one count per row |
| RuleService.RewrittenKeepsBudgetKeys | src/services/rule_service.rs:201-202 | a row is rewritten only when the budget its patch sets exists, so every budget key still holds |
| RuleService.NothingRewrittenYet | src/services/rule_service.rs:60 | before the first row the table is unchanged and nothing is counted |
| RuleService.RewrittenStep | src/services/rule_service.rs:186-233 | visiting one more row patches that row if it is written, and nothing else |
| RuleService.WrittenIdsStep | src/services/rule_service.rs:226-227 | visiting one more row adds it to the written ids exactly when it is written |
| RuleService.RewriteStep | src/services/rule_service.rs:186-233 | one visit: a written row is patched and counted once; an unwritten row changes nothing |
| RuleService.WritePatch | src/services/rule_service.rs:220-232 | the UPDATE writes the patched row and reports success exactly when its id is not rejected and the budget it sets, if any, exists; otherwise it changes nothing |
| RuleService.SingleRuleIsRulesOutcome | src/services/rule_service.rs:63-184 | the single-rule batch's patch for a row is what rule evaluation gives with that rule alone |
| RuleService.VisitRow | src/services/rule_service.rs:157-234 | one loop iteration: the row is written exactly when its patch sets a rule field and the UPDATE succeeds |
| RuleService.RewriteAll | src/services/rule_service.rs:60-237 | after all rows the table is Rewritten over every id and the count is the number of rows written; the ledger stays valid |
| RuleService.PrefixSnoc | src/services/rule_service.rs:63 | with distinct keys, each visit reaches a row not visited before |
| RuleService.PrefixAll | src/services/rule_service.rs:50-58 | the scan visits every id of the table |
| RuleService.ApplyRuleToAllTransactions | src/services/rule_service.rs:33-238 | an unknown or undecodable rule is RowNotFound and changes nothing; an inactive rule gives 0; otherwise every row its patch writes is patched and the result is the number written |
| RuleService.ApplyAllRulesToAllTransactions | src/services/rule_service.rs:241-432 | no active rule gives 0 and changes nothing; otherwise each row gets the patch of all active rules by priority and the result counts the distinct rows written |
| SqlText.QuoteAsWritten | src/services/rule_service.rs:198-210 | the value between two single quotes, unescaped |
| SqlText.Escape | src/services/transaction_service.rs:470 | doubling quotes never shortens the text, and text without quotes is unchanged |
| SqlText.QuoteEscaped | src/services/transaction_service.rs:470 | for quote-free text, the escaped literal is the written one |
| SqlText.ReadEscaped | src/services/transaction_service.rs:470 | an escaped literal reads back as its value, whatever follows it |
| SqlText.ReadEscapedBody | src/services/transaction_service.rs:470 | the inside of an escaped literal reads back as the value, up to its closing quote |
| SqlText.ReadBody | src/services/transaction_service.rs:470 | what follows the closing quote is strictly shorter than the input |
| SqlText.ReadLiteral | src/services/transaction_service.rs:470 | what follows the literal is strictly shorter than the input |
| SqlText.Assignments | src/services/rule_service.rs:197-211 | a patch gives no assignments exactly when it sets no rule field |
| SqlText.ReadColumn | src/services/rule_service.rs:197-211 | a recognised column is one the text starts with, followed by " = " |
| SqlText.JoinPrefixed | src/services/rule_service.rs:213-216 | ", " followed by the join of the assignments is the assignments each preceded by ", " |
| SqlText.ReadColumnOf | src/services/rule_service.rs:197-211 | each column's assignment text is read back as that column |
| SqlText.ParsePrefixed | src/services/rule_service.rs:194-218 | escaped assignments followed by the WHERE clause read back as the same assignments |
| SqlText.UpdateStatementParses | src/services/rule_service.rs:194-218 | the escaped statement of a patch that sets a field reads back as that patch's assignments |
| SqlText.ApplyAssignments | src/services/rule_service.rs:194-218 | applying a patch's assignments to a row gives exactly PatchRow |
| SqlText.UpdateStatementMeansPatchRow | src/services/rule_service.rs:194-218 | the escaped statement is well formed and does to the row exactly what PatchRow says |
| SqlText.UuidHasNoQuote | src/services/rule_service.rs:202 | a UUID's string form holds no quote, so the unescaped budget id is safe |
| SqlText.AsWrittenAgreesWithoutApostrophe | src/services/rule_service.rs:197-211 | when no text value holds an apostrophe, the statement as written is the escaped one |
| SqlText.AsWrittenLiteralEndsEarly | src/services/rule_service.rs:206 | the unescaped literal of `x'y` ends after x |
| SqlText.AsWrittenAssignmentRefused | src/services/rule_service.rs:205-218 | for a description `x'y` with `y` made of letters, the assignment as written leaves a quote that nothing closes, and is not read as an assignment |
| SqlText.AsWrittenBreaksOnApostrophe | src/services/rule_service.rs:205-218 | for a description `x'y` with `y` made of letters (as in O'Brien), the statement as written leaves a quote that nothing closes, so it is malformed; the escaped one reads back as the description |
| SqlText.ApostropheBreaksStatement | src/services/rule_service.rs:205-207 | the description "O'Brien" makes the statement as written malformed; escaped, it reads back as "O'Brien" |
| SqlText.AsWrittenDescriptionOnly | src/services/rule_service.rs:197-211 | a patch that sets only the description gives `updated_at`, then `description = ` and the quoted value, then the WHERE clause |
| SqlText.AsWrittenAssignsAmount | src/services/rule_service.rs:205-218 | the description `x', amount = 'y` written unescaped makes the statement assign `y` to `amount` after the description `x` |
| SqlText.InjectedAssignment | src/services/transaction_service.rs:464 | a last assignment whose value `x', other = 'y` is pasted unescaped ends the value after `x` and assigns `y` to the column `other` as well |
| SqlText.TransactionDescriptionAssignsAmount | src/services/transaction_service.rs:463-465 | an update that sets only the description `x', amount = 'y` gives a statement that also sets `amount` to `y` |
| SqlText.CategoryNameAssignsDescription | src/services/category_service.rs:87-89 | a category update that sets only the name `x', description = 'y` gives a statement that also sets the description to `y` |
| SqlText.LastAssignmentLeftOpen | src/services/transaction_service.rs:540 | for a value `x'y` with `y` made of letters (as Kid's or O'Brien) pasted unescaped as the last assignment, the literal ends after `x` and the quote after `y` opens a literal that nothing closes |
| SqlText.NoQuoteUnclosed | src/services/transaction_service.rs:543 | text without a quote never closes a literal |
| SqlText.LastAssignmentEscapedReadsBack | src/services/category_service.rs:92 | the same value with its quotes doubled reads back whole, followed by the WHERE clause |
| TransactionRuleService.Chained | src/services/transaction_rule_service.rs:34-43 | the result is the follow-up row only when the follow-up returned Some row; in every other case it is the first row |
| TransactionRuleService.FollowUp | src/services/transaction_rule_service.rs:34-43 | rules are evaluated on the written row; a follow-up update is attempted exactly when they give a patch; its errors are swallowed, so a patch whose budget names no budget leaves the first row and the tables as they were; the total balance never changes |
| TransactionRuleService.CreateTransaction | src/services/transaction_rule_service.rs:29-44 | a create error is returned and nothing else is attempted; otherwise the result is the chained row, stored under the new id; the total balance never changes |
| TransactionRuleService.UpdateTransaction | src/services/transaction_rule_service.rs:47-68 | a first-update error is returned; an unknown id gives None without rule evaluation; otherwise the result is the chained row |
| TransactionRuleService.DeleteTransaction | src/services/transaction_rule_service.rs:71-73 | the same as the ledger delete |
| TransactionRuleService.UpdateMovesEffect | src/services/transaction_service.rs:448-558 | after a successful update each account's balance is its old one minus the old row's delta plus the new row's delta; a new destination starts from 0 |
| TransactionRuleService.NamePatchMovesEffect | src/services/transaction_rule_service.rs:34-36 | for a row between distinct accounts and a named destination different from both, a patch that sets only a destination name re-points the row to the account of that name and moves the amount from the old destination to it; the source is unchanged and so is the total |
| TransactionRuleService.UpdateKeepsTotal | src/services/transaction_service.rs:447-558 | a successful update keeps the sum of all balances |
| FireflyImport.MapAccountType | src/services/firefly_import_service.rs:135-153 | the result is one of the three account types; loan, debt and liabilities in any case give "Off Budget"; "External" exactly for everything but asset, loan, debt and liabilities |
| FireflyImport.MapAccountTypeNeverOnBudget | src/services/firefly_import_service.rs:137-149 | the "On Budget" arms cannot be reached, because the `contains` checks run on text equal to "asset"; "Off Budget" is given exactly for asset, loan, debt and liabilities |
| FireflyImport.LongerNotContained | src/services/firefly_import_service.rs:138-144 | a pattern longer than the text never occurs in it |
| FireflyImport.AccountKindFromTag | src/services/firefly_import_service.rs:318-326 | a known kind is returned exactly when the lower-cased text is its tag; otherwise Other |
| FireflyImport.AccountTagRoundTrip | src/services/firefly_import_service.rs:318-326 | each account tag, in any letter case, reads back as its kind |
| FireflyImport.TransactionKindFromTag | src/services/firefly_import_service.rs:369-374 | a known kind is returned exactly when the lower-cased text is its tag; otherwise Other |
| FireflyImport.TransactionTagRoundTrip | src/services/firefly_import_service.rs:369-374 | each transaction tag, in any letter case, reads back as its kind |
| FireflyImport.ToLowerOfLower | src/services/firefly_import_service.rs:318 | text without upper-case letters is its own lower-casing |
| FireflyImport.ImportedAccountType | src/services/firefly_import_service.rs:432-436 | "On Budget" exactly for Asset, "Off Budget" exactly for Loan, Debt and Liabilities, "External" for the rest |
| FireflyImport.PlainTypeParses | src/db/account_sub_type_migration.rs:86-119 | each of the three plain account types parses to itself with no subtype |
| FireflyImport.ImportedTypesHaveNoSubtype | src/services/firefly_import_service.rs:432-436 | the type given to an imported account parses back with no subtype |
| FireflyImport.MapAccountTypeDisagreesOnAsset | src/services/firefly_import_service.rs:135-153 | `map_account_type` and the mapping `import_accounts` uses agree on every kind except Asset |
| FireflyImport.IndexByName | src/services/firefly_import_service.rs:418-421 | the loop builds exactly NameIndex of the existing accounts |
| FireflyImport.NameIndexLastWins | src/services/firefly_import_service.rs:418-421 | a name maps to the id of the last existing account with that name |
| FireflyImport.NameIndexKeys | src/services/firefly_import_service.rs:418-421 | a name is indexed exactly when some existing account has it |
| FireflyImport.AccountRequest | src/services/firefly_import_service.rs:439-445 | the request keeps name and currency, is not default, takes the imported type, and takes the balance or 0 |
| FireflyImport.AccountStep | src/services/firefly_import_service.rs:424-457 | one turn never unmaps an id and never touches the transaction count |
| FireflyImport.AccountRequests | src/services/firefly_import_service.rs:438-448 | at most one request per account |
| FireflyImport.NewCount | src/services/firefly_import_service.rs:426 | at most the number of accounts |
| FireflyImport.ImportAccounts | src/services/firefly_import_service.rs:409-460 | a failed fetch of the existing accounts is the import's error and changes nothing; otherwise the map, the counts and the requests are those of the account loop |
| FireflyImport.ImportedAccountsCounts | src/services/firefly_import_service.rs:424-457 | every account with a new name adds exactly one to the imported count or one error; existing names add neither; earlier errors are kept |
| FireflyImport.ImportedAccountsMaps | src/services/firefly_import_service.rs:426-451 | a Firefly id is mapped exactly when its name existed or its creation succeeded (or it was mapped before) |
| FireflyImport.SignedAmount | src/services/firefly_import_service.rs:482-487 | deposits are negated; every other type keeps its amount |
| FireflyImport.DefaultCategory | src/services/firefly_import_service.rs:490-497 | the default is one of Expense, Income, Transfer and Other |
| FireflyImport.DefaultCategoryInjective | src/services/firefly_import_service.rs:490-497 | different types have different default categories |
| FireflyImport.DepositOpposesWithdrawal | src/services/firefly_import_service.rs:482-487 | a non-zero deposit is recorded with the opposite sign of a withdrawal of the same amount |
| FireflyImport.TransactionRequest | src/services/firefly_import_service.rs:479-509 | the request has the mapped source, the mapped destination when there is one, the Firefly destination name and description, the signed amount, the category or its default, no budget and the Firefly date |
| FireflyImport.TransactionStep | src/services/firefly_import_service.rs:465-523 | one turn never touches the account count |
| FireflyImport.MappedCount | src/services/firefly_import_service.rs:467-476 | at most the number of transactions |
| FireflyImport.ImportTransactions | src/services/firefly_import_service.rs:463-526 | the loop computes the requests and counts that ImportedTransactions specifies |
| FireflyImport.ImportedTransactionsCounts | src/services/firefly_import_service.rs:465-523 | every transaction adds exactly one to the imported count or one error; one request is sent per mapped source; earlier errors are kept |
| FireflyImport.UnmappedSourceReported | src/services/firefly_import_service.rs:467-475 | a transaction whose source is unmapped is always reported as source-not-found |
| FireflyImport.ChooseSource | src/services/firefly_import_service.rs:165-183 | succeeds exactly for "api" with URL and token, or "csv" with both paths, and then returns them; otherwise the matching error |
| FireflyImport.Import | src/services/firefly_import_service.rs:157-206 | a bad method or missing parameters, or any failed fetch, is the error; otherwise the result is the accounts loop followed by the transactions loop, starting from zero |
| FireflyImport.ImportAccountsForEverything | src/services/firefly_import_service.rs:409-526 | after a successful import, imported accounts, imported transactions and errors together number the new accounts plus the fetched transactions |
| FireflyClient.RequestWithRetry | firefly-tracker/backend/src/firefly/client.rs:40-138 | the outcome is the retry loop's (RetryFrom from attempt 1), and the sleeps are one fewer than the attempts, the j-th being `base_delay * 2^(j-1)` |
| FireflyClient.RetryCharacterised | firefly-tracker/backend/src/firefly/client.rs:53-127 | every attempt before the last got a reply that is retried and the last did not; at most `max_retries + 1` attempts; the body is returned exactly when the last reply was a success that parsed; otherwise the error is the last reply's |
| FireflyClient.AttemptsBounded | firefly-tracker/backend/src/firefly/client.rs:99-126 | between 1 and `max_retries + 1` attempts are made |
| FireflyClient.ParseFailureNotRetried | firefly-tracker/backend/src/firefly/client.rs:80-87 | a success whose body does not parse ends the loop at that attempt with an error |
| FireflyClient.UnlistedStatusNotRetried | firefly-tracker/backend/src/firefly/client.rs:99-103 | an error status outside the retry list ends the loop at that attempt with that status |
| FireflyClient.NetworkFailuresExhaustRetries | firefly-tracker/backend/src/firefly/client.rs:106-126 | when every send fails, exactly `max_retries + 1` attempts are made and the result is a network failure |
| FireflyClient.DefaultRetryStatusesAreTransient | firefly-tracker/backend/src/firefly/client.rs:29-35 | the default retry list holds exactly 408, 429, 500, 502, 503 and 504 |
| FireflyClient.EffectiveFrequency | firefly-tracker/backend/src/firefly/client.rs:380-395 | never Auto; a specific frequency is kept; under Auto, daily iff at most 30 days, weekly iff 31 to 90, monthly iff more than 90 |
| FireflyClient.RangeDaysCountsBothEnds | firefly-tracker/backend/src/firefly/client.rs:377 | a range ending n days after its start spans n + 1 days, whatever the times of day |
| FireflyClient.Window | firefly-tracker/backend/src/firefly/client.rs:340-347 | both ends are valid; the end is the one given or now; the start is the one given, or else the date-time 180 days forward from it is the end |
| FireflyClient.DefaultWindowIsMonthly | firefly-tracker/backend/src/firefly/client.rs:340-390 | without a start date the range spans 181 days, so without an explicit frequency the balances are monthly |
| FireflyClient.MonthlyDates | firefly-tracker/backend/src/firefly/client.rs:405-441 | each date is midnight on a first of the month within [start, end], the dates increase, and every such month start is among them |
| FireflyClient.MonthsCoveredInitially | firefly-tracker/backend/src/firefly/client.rs:405-406 | no month start before the month of `start` lies in the range |
| FireflyClient.MonthsCoveredStep | firefly-tracker/backend/src/firefly/client.rs:422-440 | after one turn every month start up to the current month that lies in the range has been kept |
| FireflyClient.MonthsCoveredFinally | firefly-tracker/backend/src/firefly/client.rs:418-420 | once a month start is past `end`, every month start in the range is among the dates |
| FireflyClient.Shifted | firefly-tracker/backend/src/firefly/client.rs:482 | stepping keeps the time of day and gives a valid date-time |
| FireflyClient.SteppedRun | firefly-tracker/backend/src/firefly/client.rs:468-483 | the k-th element is the start moved by k steps |
| FireflyClient.SteppedDates | firefly-tracker/backend/src/firefly/client.rs:461-483 | the k-th date is the start moved by k steps and none is after `end`, while the next step is after `end` |
| FireflyClient.ShiftedIncreasing | firefly-tracker/backend/src/firefly/client.rs:482 | with a positive step, more steps give a strictly later date-time |
| FireflyClient.Gathered | firefly-tracker/backend/src/firefly/client.rs:471-479 | no more balances than requested dates |
| FireflyClient.GatherBalances | firefly-tracker/backend/src/firefly/client.rs:470-483 | the loop keeps exactly the balances of the requests that return, in request order |
| FireflyClient.GatheredAll | firefly-tracker/backend/src/firefly/client.rs:470-483 | when every request returns, there is one balance per date, the i-th from the i-th date |
| FireflyClient.GatheredInOrder | firefly-tracker/backend/src/firefly/client.rs:501-502 | when the dates increase and each balance carries its requested date, the final sort changes nothing |
| FireflyClient.AddClosing | firefly-tracker/backend/src/firefly/client.rs:443-457 | daily keeps the balances; monthly and weekly add the balance at `end` when something was gathered, the last balance is on another day and earlier, and the request returns |
| FireflyClient.RequestedDates | firefly-tracker/backend/src/firefly/client.rs:403-483 | the requested dates follow the monthly or stepped schedule of the frequency |
| FireflyClient.AccountBalances | firefly-tracker/backend/src/firefly/client.rs:324-512 | the range is Window's (the end given or now, the start given or 180 days before the end); the frequency is the effective one for the range, the requests follow its schedule, the result is a permutation of the gathered balances plus the closing one, and it is sorted by date |
| Text.ToLower | src/services/rule_service.rs:652 | same length; each upper-case ASCII letter is shifted to lower case and every other character kept |
| Text.ToLowerChar | src/services/rule_service.rs:652 | upper-case ASCII letters move 32 code points up, to their lower case; every other character is kept |
| Text.ToLowerHasNoUpper | src/services/rule_service.rs:652 | a lower-cased string has no upper-case ASCII letter |
| Text.ToLowerIdempotent | src/services/rule_service.rs:652 | lower-casing twice equals lower-casing once |
| Text.FindFirst | src/services/rule_service.rs:652 | the first position where the pattern occurs, or None exactly when it occurs nowhere |
| Text.ContainsAt | src/services/rule_service.rs:652 | an occurrence at any position means the string contains the pattern |
| Text.StartsWithContains | src/services/rule_service.rs:655 | a string that starts with a pattern contains it |
| Text.TrimStart | src/db/account_sub_type_migration.rs:92 | drops exactly the leading whitespace |
| Text.TrimEnd | src/db/account_sub_type_migration.rs:92 | drops exactly the trailing whitespace |
| Text.Trim | src/db/account_sub_type_migration.rs:92 | the result has no whitespace at either end and is no longer than the input |
| Text.TrimOfTrimmed | src/db/account_sub_type_migration.rs:105 | trimming an already trimmed string changes nothing |
| Text.Split | src/db/account_sub_type_migration.rs:101 | always at least one piece |
| Text.SplitAround | src/db/account_sub_type_migration.rs:101 | a string is its text before a separator occurrence, the separator, and the text after it |
| Text.JoinSplit | src/db/account_sub_type_migration.rs:101 | joining the pieces of a split with the separator gives back the string |
| Uuids.HexValueOfDigit | src/services/rule_service.rs:661 | a hex digit reads back as its value |
| Uuids.ParseHexOfHex | src/services/rule_service.rs:710 | hex text reads back as its digits |
| Uuids.HexValue | src/services/rule_service.rs:710 | a character has a hex value exactly when it is a decimal digit or a letter a-f in either case |
| Uuids.ParseHex | src/services/rule_service.rs:710 | a successful parse has one digit per character |
| Uuids.DehyphenateHyphenate | src/services/rule_service.rs:661 | the 8-4-4-4-12 form has hyphens in place and drops back to its 32 digits |
| Uuids.ToString | src/services/rule_service.rs:661 | always 36 characters |
| Uuids.ParseUuid | src/services/rule_service.rs:710 | accepts only the 32, 36, 38 and 45 character forms |
| Uuids.ParseToString | src/services/rule_service.rs:661 | `parse_str(u.to_string())` gives back u |
| Uuids.ToStringInjective | src/services/rule_service.rs:661 | different ids have different text |
| Uuids.ToStringLowerCase | src/services/rule_service.rs:661-664 | the text of an id has no upper-case letter |
| Uuids.ParseSimple | src/services/rule_service.rs:710 | the 32-digit form without hyphens parses too |
| Floats.DigitsOfNat | src/services/rule_service.rs:679 | the decimal digits of a number read back as the number |
| Floats.DecimalOfDigits | src/services/rule_service.rs:679 | a string of digits parses as the decimal number it spells |
| Floats.ParseNatString | src/services/rule_service.rs:679 | `parse::<f64>` of a number's digits is that number |
| Floats.NotInfNan | src/services/rule_service.rs:679 | a digit string is none of the infinity or NaN spellings and has no sign |
| Floats.ParseNegated | src/services/rule_service.rs:679 | a leading minus negates the parse and fails exactly when the rest fails |
| Floats.ParseRejectsBarePoint | src/services/rule_service.rs:679 | "." does not parse |
| Floats.ParseRejectsEmptyExponent | src/services/rule_service.rs:679 | "1e" does not parse |
| Floats.ParseF64 | src/services/rule_service.rs:679 | the empty string does not parse |
| Calendar.DaysInMonth | src/services/transaction_service.rs:18-31 | between 28 and 31 days, and 29 exactly for February of a leap year |
| Calendar.KeyIsLexicographic | src/services/transaction_service.rs:18-31 | the day number orders dates by year, month, day, and is equal only for equal dates |
| Calendar.NextDay | firefly-tracker/backend/src/firefly/client.rs:482 | the next day is valid and later |
| Calendar.NextDayIsNext | firefly-tracker/backend/src/firefly/client.rs:482 | no valid date lies strictly between a day and the next |
| Calendar.AddDays | firefly-tracker/backend/src/firefly/client.rs:482 | adding n days gives a valid date at least n day numbers later |
| Calendar.ForwardAddDays | firefly-tracker/backend/src/firefly/client.rs:482 | counting forward from a date to n days later gives n |
| Calendar.DaysBetweenIsForward | firefly-tracker/backend/src/firefly/client.rs:377 | the signed day difference of a date and n days later is n one way and -n the other |
| Calendar.StampIsLexicographic | firefly-tracker/backend/src/firefly/client.rs:418 | date-times compare by date, then time of day, and are equal only when equal |
| Calendar.AddDaysTime | firefly-tracker/backend/src/firefly/client.rs:482 | adding days keeps the time of day, and a positive number of days gives a later date-time |
| Calendar.PrevDay | firefly-tracker/backend/src/firefly/client.rs:346 | the day before is valid and its next day is the given one |
| Calendar.SubDays | firefly-tracker/backend/src/firefly/client.rs:346 | stepping back n days gives a valid date |
| Calendar.AddSubDays | firefly-tracker/backend/src/firefly/client.rs:346 | stepping back n days and then forward n days returns to the date |
| Calendar.AddDaysLast | firefly-tracker/backend/src/firefly/client.rs:482 | n + 1 days forward are n days forward and one more |
| Calendar.SubDaysTime | firefly-tracker/backend/src/firefly/client.rs:346 | stepping a date-time back keeps its time of day and gives a valid date-time |
| Calendar.MonthStart | firefly-tracker/backend/src/firefly/client.rs:411-415 | a valid date-time at midnight on the first |
| Calendar.NextMonth | firefly-tracker/backend/src/firefly/client.rs:436-440 | a valid month whose month number is one more |
| Calendar.MonthStartOrder | firefly-tracker/backend/src/firefly/client.rs:418-423 | month starts are ordered as their month numbers |
| Calendar.InMonth | src/services/transaction_service.rs:18-31 | a date-time lies at or after the start of a month and before the start of the next exactly when it is in that month |
| Sorting.Insert | src/services/rule_service.rs:608 | sorted insertion adds exactly the one element and keeps the order |
| Sorting.SortedCons | src/services/rule_service.rs:608 | a head no larger than every key of a sorted rest gives a sorted sequence |
| Sorting.SortBy | firefly-tracker/backend/src/firefly/client.rs:502 | the result is sorted by the key and a permutation of the input |
| Sorting.SortSorted | firefly-tracker/backend/src/firefly/client.rs:502 | sorting an already sorted sequence changes nothing |
| Sorting.RemoveAtMultiset | src/services/rule_service.rs:608 | removing one element removes exactly it from the multiset |
| Sorting.RemoveAtSorted | src/services/rule_service.rs:608 | removing an element keeps a sorted sequence sorted |
| Sorting.SortedPermutationsAgreeOnKeys | src/services/rule_service.rs:608 | two sorted permutations of each other have the same key at every position |
| Sorting.KeysAfterRemoval | src/services/rule_service.rs:608 | the key agreement of two sorted permutations survives removing one matching element from each |
| Base.Filter | src/services/rule_service.rs:608 | keeps exactly the elements of the input that satisfy the predicate |
| Base.FilterMultiset | src/services/rule_service.rs:608 | each element is kept as often as it occurs when it satisfies the predicate, and never otherwise |

## Left out

- Network, HTTP and file I/O: the reqwest calls, the CSV readers, serde decoding of HTTP bodies, and the `DashMap` caches with their `Instant` time-to-live are not modelled. What a fetch or a request returns is given to the operations as an input (`reply`, `fetch`, the fetched account and transaction lists, the creation outcomes).
- `tokio::time::sleep`: `FireflyClient.RequestWithRetry` returns the delays instead of waiting them.
- `Utc::now()` and `Uuid::new_v4()` are parameters (`now`, and the fresh ids the callers pass). A fresh id that collides with an existing row makes the INSERT fail, as the primary key would. The batch paths of `RuleService` read the clock once per rewritten row (src/services/rule_service.rs:193 and 386); the model stamps every row of one batch with the same `now`.
- Floating point: amounts and balances are exact `real`s. Rounding to the nearest `f64`, overflow to infinity and the loss of precision in long sums are not modelled. `is_finite` and the ordering of NaN are modelled on the `F64` datatype.
- Floats.ParseF64: decimal text and `inf`/`infinity`/`nan` are read exactly, without rounding to the nearest double; a decimal too large for an `f64` is not turned into infinity.
- Text.ToLower: lower-cases ASCII letters only; Rust's `to_lowercase` also maps non-ASCII upper-case letters, some of them to several characters.
- FireflyClient.Backoff: `base_delay * (1 << (attempt - 1))` is computed without `u64` overflow, so delays past 64 attempts are not wrapped or rejected as the shift would be.
- Calendar: years are unbounded integers; chrono's representable range and sub-second precision are not modelled. A date-time is a date plus whole seconds of the day, in UTC.
- Database errors other than the modelled ones are not modelled: a lost connection or a serialisation failure cannot occur in the model. The modelled ones are unique violations, violations of the account, budget and category-group foreign keys, missing rows, rows-affected checks and invalid statements.
- The `budgets` table is a constant set of ids. Budgets are created and deleted by the thin CRUD services, which are not part of this model, so the NULLing of `budget_id` when a budget is deleted (ON DELETE SET NULL) is not modelled.
- The `category_groups` table is a constant set of ids as well. Groups are managed by the thin CRUD services, so the NULLing of `group_id` when a group is deleted (ON DELETE SET NULL, src/db/category_groups_migration.rs:78) is not modelled.
- The category foreign key `fk_category` (src/db/migrations.rs:254) is not part of `Store.Database.Valid` and is not checked by the writes. The category ids they store come from `find_or_create_category` or are the row's old one.
- RuleService.ApplyRuleToAllTransactions, RuleService.ApplyAllRulesToAllTransactions: an UPDATE of the batch paths that names no existing budget is refused, as `fk_budget` does. Any other refused UPDATE is given by the set `rejected` of transaction ids; why it fails is not modelled.
- RuleService.WritePatch: models the UPDATE with every value escaped (`SqlText.UpdateStatementMeansPatchRow`), which is the statement as written only when no text value holds an apostrophe (`SqlText.AsWrittenAgreesWithoutApostrophe`). As written, a value with an apostrophe that the database still accepts can store other text or assign other columns, `amount` among them (`SqlText.AsWrittenAssignsAmount`).
- RuleService.RewriteAll: the same as for `RuleService.WritePatch`. A row whose accepted as-written UPDATE writes something other than `PatchRow` is not modelled.
- RuleService.RewrittenKeepsLedger: holds for the escaped statement. An accepted as-written UPDATE that assigns `amount` changes no balance, so double entry breaks; that case is outside the lemma.
- RuleService.ApplyRuleToAllTransactions: the same as for `RuleService.RewriteAll`.
- RuleService.ApplyAllRulesToAllTransactions: the same as for `RuleService.RewriteAll`.
- TransactionRuleService.CreateTransaction, TransactionRuleService.UpdateTransaction: a failure of the rule query is the boolean parameter `rulesUnavailable`; its cause is not modelled.
- Error messages are datatype values; their exact text is modelled only where a caller inspects or reports it (the import's error list).
- Store.Session.FindAccountByName: `fetch_optional` returns some row of that name; which one, when names repeat, is not specified, as in the source.
- TransactionService.UpdateTransaction: the UPDATE of `update_transaction` pastes the description (src/services/transaction_service.rs:464) and the destination name (lines 502 and 540) unescaped; the model writes the row as the statement with these escaped would. As written, a value with an apostrophe followed by letters (`Kid's`) leaves a literal open and the update fails and rolls back (`SqlText.LastAssignmentLeftOpen`). A description `x', amount = '0` sets `amount` to 0 while the balances were moved by the request's amount, so double entry breaks (`SqlText.TransactionDescriptionAssignsAmount`). Neither case is modelled; see Findings.
- TransactionService.UpdateInSession: the same as for `TransactionService.UpdateTransaction`.
- TransactionService.WriteInSession: the same as for `TransactionService.UpdateTransaction`; the written row is the escaped statement's.
- TransactionService.UpdateRecords: the same as for `TransactionService.UpdateTransaction`; the stored description and destination name are the request's only when they hold no apostrophe.
- TransactionService.UpdateKeepsLedger: holds for the escaped statement; an as-written description that assigns `amount` breaks double entry and is outside the lemma.
- TransactionRuleService.FollowUp: the follow-up update is `TransactionService.UpdateTransaction` and has the same gap. A rule that sets a description or destination name with an apostrophe makes the follow-up fail as written, so the first row is returned; the model writes the patch.
- TransactionRuleService.CreateTransaction: the same as for `TransactionRuleService.FollowUp`.
- TransactionRuleService.UpdateTransaction: the same as for `TransactionService.UpdateTransaction` for both updates, and as for `TransactionRuleService.FollowUp`.
- TransactionRuleService.UpdateMovesEffect: holds for the escaped statement; an as-written description that assigns `amount` leaves the stored amount different from the one the balances moved.
- TransactionRuleService.NamePatchMovesEffect: holds for a destination name the escaped statement writes; a name with an apostrophe makes the statement as written fail, and no re-pointing happens.
- CategoryService.UpdateCategory: `update_category` pastes the name unescaped (src/services/category_service.rs:88) and escapes only the description (line 92); the model writes the name as the escaped statement would. As written, a name like `Kid's` leaves a literal open and the update fails (`SqlText.LastAssignmentLeftOpen`), and a name `x', description = 'y` also overwrites the description (`SqlText.CategoryNameAssignsDescription`). Neither case is modelled; see Findings.
- Rule CRUD (`create_rule`, `update_rule`, `delete_rule`, `get_rules`) and the SQL readers and aggregations (`get_transactions`, `get_account_transactions`, the spending reports and the query of `get_monthly_incoming_transactions`) are not modelled: their logic is SQL text. Of the monthly query only the date window is modelled.
- The JSON text of stored conditions and actions is modelled at the level of records (a list of tag and value pairs, or malformed text), not as characters.
- Concurrency and the isolation level of the database: each ledger operation is atomic in the model.
- The thin CRUD services (accounts, budgets, groups, settings), the HTTP routes and templates, the migrations other than `parse_account_type`, the configuration loading and the stale `transaction_management_service.rs` are not part of this model.
- The CSV and API fetch functions of the importer, and `From<FireflyAccount>` with its `f64` parse, are not part of this model; their results are inputs.

## Findings

| source | as written | input that shows it | evidently intended | confidence | as-written member | corrected member |
|---|---|---|---|---|---|---|
| src/services/rule_service.rs:198-210 | the batch paths paste each patch value between single quotes as it is, with no escaping (the same again at lines 391-403) | a rule whose action is SetDescription with the value `O'Brien` | the quote doubled, as `update_transaction` does for the category (src/services/transaction_service.rs:470), so that the UPDATE writes exactly the patch | not executed | SqlText.AsWrittenBreaksOnApostrophe | SqlText.UpdateStatementMeansPatchRow |
| src/services/rule_service.rs:198-210 | the same unescaped values: a value whose apostrophe is followed by more SQL is run as SQL | a rule whose action is SetDescription with the value `x', amount = '0` | the value stored as the description, as the escaped statement does | not executed | SqlText.AsWrittenAssignsAmount | SqlText.UpdateStatementMeansPatchRow |
| src/services/transaction_service.rs:463-465 | `update_transaction` pastes the description between single quotes as it is (the destination name the same at lines 502 and 540), while it doubles the quotes of the category at line 470 | an update whose description is `Kid's` | the quote doubled, as for the category, so that the update stores `Kid's` | not executed | SqlText.LastAssignmentLeftOpen | SqlText.LastAssignmentEscapedReadsBack |
| src/services/transaction_service.rs:463-465 | the same unescaped description: an apostrophe followed by more SQL is run as SQL | an update whose description is `x', amount = '0` | the text stored as the description, with the amount the balances were moved by, so double entry holds | not executed | SqlText.TransactionDescriptionAssignsAmount | TransactionService.UpdateKeepsLedger |
| src/services/category_service.rs:87-89 | `update_category` pastes the name between single quotes as it is, while it doubles the quotes of the description at line 92 | a category update whose name is `x', description = 'y` | the name escaped like the description, so that only the supplied fields change | not executed | SqlText.CategoryNameAssignsDescription | CategoryService.UpdateCategory |

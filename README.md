# Shared expenses: net-balance summary and equal split, in Dafny

This project models the two computations at the heart of a small
shared-expenses web application, in which group members record what they
paid and the app tells each user who owes whom.

- **Net-balance summary** (`GET /api/expenses/summary`). Given the viewer,
  the viewer's groups, the expenses of those groups and their split rows,
  the handler works in four steps:
  - it builds an expense-to-payer lookup;
  - it scans the split rows, keeping one running net per counterparty in a
    map that remembers insertion order and the display name fixed at
    insertion;
  - it partitions the counterparties into `owedBy` (they owe the viewer)
    and `owesTo` (the viewer owes them), using a ±0.009 noise band;
  - it totals both lists.
- **Expense creation with an equal split** (`POST /api/expenses`). The
  request body is checked against its schema and a group without members is
  refused. Otherwise one expense row and one split row per member are
  produced, every row carrying `amount / n` rounded to the cent.

Money is integer cents throughout. The amount columns are `numeric(12,2)`.
The `> 0.009` and `< -0.009` tests are kept literally as `10 * net > 9` and
`10 * net < -9`, and `BalanceSummary.NoiseBandIsZero` proves them equal to
`net > 0` and `net < 0` on whole cents. Every `toFixed(2)` of the summary is
the identity on cents. The one real division, the share of an expense, is
rounded to the nearest cent as `toFixed(2)` rounds: the nearer cent, and of
two equally near the larger.

## Layout

| file | module | what it holds |
|---|---|---|
| `wrappers.dfy` | `Wrappers` | `Option` and `Result` |
| `domain.dfy` | `Domain` | identifiers and `Cents` |
| `expense_creation.dfy` | `ExpenseCreation` | schema check, share rounding, split rows, the POST handler as a function |
| `summary_spec.dfy` | `BalanceSummary` | the summary as functions: payer lookup, one step of the scan (`Step`), the scan (`Run`), the partition (`TallyOf`), the handler (`SummaryOf`) |
| `summary_props.dfy` | `BalanceProperties` | independent definitions (what each counterparty lent and borrowed, the first row touching each) and the lemmas tying the summary to them |
| `summary_route.dfy` | `SummaryRoute` | the handler as the source runs it: two loops that update a map, a key order and running totals in place, each proved equal to the functions |
| `summary_scenarios.dfy` | `SummaryScenarios` | two worked cases computed to the cent |

The equal-split code is a single expression and a `map` over the members,
so it is modelled as functions. The summary is two loops that mutate a
`Map` and accumulators, so it is modelled as methods with loop invariants.
Each method is proved equal to the functions of `BalanceSummary`, and the
properties are proved as lemmas about those functions.

Behaviours kept from the code:
- **Payer check.** `if (!paidBy)` skips a row whose expense is not in the
  lookup, and also one whose payer is the empty string.
- **Duplicate expense ids.** `new Map(...)` over the expenses lets a later
  expense win over an earlier one with the same id.
- **Names.** A counterparty's display name is set when the counterparty is
  first inserted and never changed after that. A participant is named from
  the row's own `userName ?? userEmail ?? userId`. A payer is named from
  the first row among *all* split rows (not only the rows scanned so far)
  whose participant is the payer, falling back to the payer's id. A later
  row naming the payer with a different name does not change it.
- **List order.** `owedBy` and `owesTo` follow the map's insertion order,
  which is the order of the first row touching each counterparty.
- **Payer membership.** The POST handler does not check that the payer is a
  member of the group, and neither does the model.
- **Request body.** The body is modelled field by field: absent,
  present with a wrong type, or present with the right type. A body that
  does not parse, or parses to a falsy value, is `None` and gets the
  "Invalid JSON" answer.
- **Identifiers.** The schema's `uuid()` check is modelled as zod 3's
  `uuid()` pattern: 8-4-4-4-12 hexadecimal digits, in either case. zod 4
  also demands the version and variant digits; which zod the app uses is
  not part of this model.
- **Description length.** `max(500)` compares JavaScript `.length`, which
  counts UTF-16 code units, so a character above U+FFFF counts twice. The
  model counts the same way.

Inputs the handlers read from the database, the id the database gives the
new expense, and the group's member list are parameters.

## Model

| member | source | states |
|---|---|---|
| `ExpenseCreation.Validate` | src/app/api/expenses/route.ts:8-13 | an accepted body is exactly the body of a well-formed request: uuid group and payer, amount > 0, description absent or at most 500 UTF-16 code units; every refusal is `InvalidBody` |
| `ExpenseCreation.ValidateAcceptsWellFormed` | src/app/api/expenses/route.ts:8-13 | conversely, the body of every well-formed request is accepted and yields that request unchanged |
| `ExpenseCreation.Utf16Length` | src/app/api/expenses/route.ts:11 | a string's JavaScript length is between its character count and twice it, and equals the character count exactly when no character is above U+FFFF |
| `ExpenseCreation.DescriptionLimitCountsCodeUnits` | src/app/api/expenses/route.ts:11 | 300 characters above U+FFFF (600 code units) are refused, 500 characters of the Basic Multilingual Plane are accepted |
| `ExpenseCreation.AstralLength` | src/app/api/expenses/route.ts:11 | a string of characters above U+FFFF has twice as many code units as characters |
| `ExpenseCreation.ShareOf` | src/app/api/expenses/route.ts:37 | the share is within half a cent of amount / n, with a tie rounding up, and is never negative for a positive amount |
| `ExpenseCreation.ShareIsNearestCent` | src/app/api/expenses/route.ts:37 | no whole number of cents is closer to amount / n than the share |
| `ExpenseCreation.ShareIsUnique` | src/app/api/expenses/route.ts:37 | any number of cents meeting the rounding bound is the share, so the bound determines it |
| `ExpenseCreation.EqualSplit` | src/app/api/expenses/route.ts:52-57 | one row per member, in member order, each with the expense id, that member and the common share |
| `ExpenseCreation.EqualSplitTotal` | src/app/api/expenses/route.ts:51-58 | the split rows add up to n times the share |
| `ExpenseCreation.CreateExpense` | src/app/api/expenses/route.ts:20-58 | unreadable JSON, a refused body and an empty member list are each rejected, exactly in those cases, with nothing produced; otherwise the expense keeps the request's group, payer, amount and description under the new id, and the split rows are one per member with the rounded share |
| `ExpenseCreation.SplitTotalWithinHalfCentPerMember` | src/app/api/expenses/route.ts:37 | the rounding remainder is not redistributed: the rows of a created expense add up to within n/2 cents of its amount |
| `ExpenseCreation.HundredOverThree` | src/app/api/expenses/route.ts:37 | 100.00 over three members gives 33.33 each, 99.99 in all |
| `ExpenseCreation.SplitKeysDistinct` | src/app/api/expenses/route.ts:52-57 | distinct members give split rows with distinct (expense, user) keys |
| `BalanceSummary.PaidByLookupKeys` | src/app/api/expenses/summary/route.ts:58 | the lookup's keys are exactly the expense ids |
| `BalanceSummary.PaidByLookupLastWins` | src/app/api/expenses/summary/route.ts:58 | of several expenses with one id, the last gives the payer |
| `BalanceSummary.FindByUser` | src/app/api/expenses/summary/route.ts:84 | none exactly when no row has that user; otherwise the first row that has that user |
| `BalanceSummary.Run` | src/app/api/expenses/summary/route.ts:62-90 | after any prefix of the scan, the key order is free of repetition and holds exactly the map's keys, and the viewer is never a counterparty |
| `BalanceSummary.NoiseBandIsZero` | src/app/api/expenses/summary/route.ts:98-101 | on whole cents, above the band means positive and below it means negative |
| `BalanceProperties.OwedByIds` | src/app/api/expenses/summary/route.ts:97-100 | the counterparties listed in `owedBy` are exactly the ledger keys with a positive net |
| `BalanceProperties.OwesToIds` | src/app/api/expenses/summary/route.ts:101-105 | the counterparties listed in `owesTo` are exactly the ledger keys with a negative net |
| `BalanceProperties.IdsInLedgerOrder` | src/app/api/expenses/summary/route.ts:97 | both lists take the ledger's keys in insertion order, each once |
| `BalanceProperties.SkippedRowsChangeNothing` | src/app/api/expenses/summary/route.ts:65-89 | a row with no payer, the payer's own share, or a row between two other users leaves the ledger as it is |
| `BalanceProperties.StepEffect` | src/app/api/expenses/summary/route.ts:73-89 | a row adds its amount to the net of a participant who owes the viewer, subtracts it from the payer the viewer owes, and changes no other net; existing names stay; a new counterparty is appended with the inserted name |
| `BalanceProperties.UninvolvedRowChangesNothing` | src/app/api/expenses/summary/route.ts:73-89 | a row that touches no counterparty of the viewer does not change the ledger |
| `BalanceProperties.RunComputesNets` | src/app/api/expenses/summary/route.ts:64-90 | after the scan, the keys are exactly the users some row touches, and each net is what that user owes on the viewer's expenses minus what the viewer owes on theirs |
| `BalanceProperties.RunOrderIsFirstTouch` | src/app/api/expenses/summary/route.ts:77-79 | keys stand in the order of the first row that touches each |
| `BalanceProperties.RunNamesFromFirstTouch` | src/app/api/expenses/summary/route.ts:76-86 | each name is the one inserted by the first row touching that counterparty, unchanged by later rows |
| `BalanceProperties.DroppingUninvolvedRows` | src/app/api/expenses/summary/route.ts:64-90 | removing rows that touch no counterparty leaves the final ledger unchanged |
| `BalanceProperties.SelfPaidExpenseIsNeutral` | src/app/api/expenses/summary/route.ts:69-71 | an expense whose rows are all its payer's own shares, or whose payer is unknown, can be dropped without changing the ledger |
| `BalanceProperties.StepSumNets` | src/app/api/expenses/summary/route.ts:73-89 | one row moves the sum of all nets by what it adds to or takes from the viewer's position |
| `BalanceProperties.RunSumNets` | src/app/api/expenses/summary/route.ts:64-90 | the sum of all nets is everything others owe on the viewer's expenses minus everything the viewer owes on others' |
| `BalanceProperties.TallyLists` | src/app/api/expenses/summary/route.ts:97-106 | `owedBy` holds name and net of each positive key, `owesTo` name and negated net of each negative key, in ledger order |
| `BalanceProperties.TallyTotals` | src/app/api/expenses/summary/route.ts:92-106 | the totals are the sums of the listed amounts, every listed amount is positive, and owed minus owes is the sum of all nets |
| `BalanceProperties.SummaryZeroCases` | src/app/api/expenses/summary/route.ts:26-42 | a viewer in no group, or groups with no expenses, get all zeros and empty lists |
| `BalanceProperties.NetZeroOutsideLedger` | src/app/api/expenses/summary/route.ts:64-90 | a user is a key exactly when some row touches them; a key's net is their net balance, and anyone else's net balance is zero |
| `BalanceProperties.SummaryOwedBy` | src/app/api/expenses/summary/route.ts:97-100 | `owedBy` lists exactly the users with a positive net balance, each once, in order of first touch, with the inserted name and the net |
| `BalanceProperties.SummaryOwesTo` | src/app/api/expenses/summary/route.ts:101-105 | `owesTo` lists exactly the users with a negative net balance, each once, in order of first touch, with the inserted name and the negated net |
| `BalanceProperties.SummaryListsDisjoint` | src/app/api/expenses/summary/route.ts:97-106 | no counterparty is in both lists |
| `BalanceProperties.SummaryTotals` | src/app/api/expenses/summary/route.ts:92-115 | each total is the sum of its list and is non-negative, listed amounts are positive, and the balance is owed minus owes |
| `BalanceProperties.SummaryBalanceIsPosition` | src/app/api/expenses/summary/route.ts:108 | the balance is everything others owe on the viewer's expenses minus everything the viewer owes on others' |
| `SummaryRoute.ComputeSummary` | src/app/api/expenses/summary/route.ts:20-115 | the handler's loops compute exactly the summary function, with the zero cases and the total properties |
| `SummaryRoute.ScanSplits` | src/app/api/expenses/summary/route.ts:64-90 | the loop over the split rows ends with the map and key order of the scan |
| `SummaryRoute.ScanRow` | src/app/api/expenses/summary/route.ts:65-89 | one loop iteration performs exactly one step of the scan |
| `SummaryRoute.TallyNets` | src/app/api/expenses/summary/route.ts:92-106 | the loop over the map's values yields exactly the totals and lists of the partition |
| `SummaryScenarios.TwoPartyPayerView` | src/app/api/expenses/summary/route.ts:73-79 | A paid 100.00 split with B: for A, B owes 50.00, named by email when B has no name |
| `SummaryScenarios.TwoPartyParticipantView` | src/app/api/expenses/summary/route.ts:80-89 | for B, 50.00 is owed to A, named from A's first row |
| `SummaryScenarios.CancellingExpensesPayerView` | src/app/api/expenses/summary/route.ts:97-106 | A and B each paid 100.00 split evenly: for A everything is zero and B, settled, is listed nowhere |
| `SummaryScenarios.CancellingExpensesOtherView` | src/app/api/expenses/summary/route.ts:97-106 | the same expenses seen by B: all zero |

## Left out

- Authentication (`getAuthenticatedUser`) and its 401 answer, and the 500 answer on an exception: both come from I/O that is not modelled.
- The database. The three queries of the summary, the member query of the POST, the inserts and the transaction are replaced by input sequences and returned values. The transaction's atomicity is a persistence guarantee.
- The `GET` handler of `src/app/api/expenses/route.ts`: a single query with no computation.
- Floating point. `parseFloat`, binary `toFixed` rounding and accumulated float error are replaced by exact integer cents.
- Sub-cent request amounts. The schema accepts any positive number, and `amount.toFixed(2)` stores 0.004 as 0.00. The model's amount is already a whole number of cents, so such requests are not represented.
- The schema's error details (`parsed.error.flatten()`): every refusal is the single `InvalidBody`.
- A JSON body that is an array or a scalar is represented only through its fields, all absent or mistyped, which the schema refuses as it refuses any such body.
- Idempotence and determinism of the summary hold trivially, because the model is a function of its inputs.
- The composite primary keys (`src/db/schema.ts:25`, `src/db/schema.ts:59`) appear only as the distinct-members requirement of `ExpenseCreation.SplitKeysDistinct`. Nothing else needs them.
- Pages, components, the other API routes, the unused validation schemas and types, and the seed script. They contain no logic of the modelled core.

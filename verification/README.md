# Expense service of the warikan (bill-splitting) app, in Dafny

This project models the backend's expense service
(`backend/src/services/expenseService.ts`). The service does two things:

- **`addExpense`** registers an expense. It first looks the expense's group up
  by name and fails with a "group does not exist" error when there is none.
  It then checks with `includes` (exact string equality) that the payer is one
  of the group's members, and fails with a "payer is not a member" error when
  they are not. Otherwise it hands the expense, unmodified, to the expense
  repository's save.
- **`getSettlements`** produces a group's payment instructions. It fails with
  the same "group does not exist" error for an unknown name. Otherwise it
  loads every stored expense and keeps those whose `groupName` equals the
  requested name. It passes them, with the group's `members`, to the
  settlement calculation.

The repositories are modelled as one immutable `Store`: a map from group name
to `Group`, and the expense list in saved order. The expense repository's
code is not part of this model; saving is modelled as an append to the list,
as the group repository's save (read the list, add the record, write it back)
suggests. The settlement calculation's code is not part of this
model. `GetSettlements` therefore takes it as a parameter `settle` of
function type, and the model states exactly which expenses and which member
list `settle` receives. The service's thrown errors become a `Result` with the
two error kinds `GroupNotFound(name)` and `PayerNotMember`.

Files:
- `results.dfy`: `Option` and `Result`.
- `domain.dfy`: `Group`, `Expense`, `Settlement`, `ServiceError`.
- `sequences.dfy`: the `includes` scan and the subsequence relation.
- `stores.dfy`: the in-memory store and the consistency invariant.
- `expense_service.dfy`: `AddExpense`, `GetSettlements` and the group filter.
- `group_filter.dfy`: what the filter keeps and in which order.
- `service_properties.dfy`: properties that relate calls to each other and to the invariant.
- `session.dfy`: the service driven by a sequence of requests.
- `scenarios.dfy`: the service's unit-test scenarios.

## Model

| member | source | states |
|---|---|---|
| ExpenseService.AddExpense | backend/src/services/expenseService.ts:26-37 | A missing group gives the not-found error, whatever the payer is. If the group exists and the payer is not a member, the result is the payer error. It succeeds exactly when the group exists and the payer is a member. On success the groups are unchanged and the expense list is the old list followed by the given expense. |
| ExpenseService.GetSettlements | backend/src/services/expenseService.ts:13-23 | Fails, with a not-found error naming the group, exactly when the group is not stored. Otherwise the result is `settle` applied to the group's filtered expenses and to its member list exactly as stored. |
| ExpenseService.ExpensesOfGroup | backend/src/services/expenseService.ts:19-21 | Every kept expense has the requested group name. No stored expense with that name is missing. Every kept expense comes from the store, and the result is no longer than the store. |
| Sequences.Includes | backend/src/services/expenseService.ts:32 | The left-to-right exact-equality scan finds the name exactly when the name occurs in the member sequence. |
| Stores.GetGroupByName | backend/src/services/expenseService.ts:14-15 | Stands for the group service's lookup, whose code is not part of this model: a keyed lookup that finds a group exactly when one is stored under the name, and in a store keyed by group name the found group carries the requested name. |
| Stores.SaveThenLoad | backend/src/services/expenseService.ts:36 | A load after a save returns the old list followed by the saved expense, and no group lookup changes. |
| Stores.SaveExpense | backend/src/services/expenseService.ts:36 | Saving leaves the groups alone. It keeps every earlier expense at its position and places the new expense last, one longer than before. |
| GroupFilter.FilterAppend | backend/src/services/expenseService.ts:19-21 | Filtering a concatenation equals concatenating the filtered parts, so store order is kept. |
| GroupFilter.FilterMultiplicity | backend/src/services/expenseService.ts:19-21 | A matching expense appears in the filter's result as many times as in the store, and a non-matching one does not appear. |
| GroupFilter.FilterIsSubsequence | backend/src/services/expenseService.ts:19-21 | The filtered expenses form a subsequence of the stored ones. |
| GroupFilter.FilterIsLongestMatchingSubsequence | backend/src/services/expenseService.ts:19-21 | No subsequence of the store whose expenses all match is longer than the filter's result, and one just as long equals it. This determines the result uniquely. |
| GroupFilter.FilterIdempotent | backend/src/services/expenseService.ts:21 | Filtering an already filtered list by the same name changes nothing. |
| ServiceProperties.AddExpensePreservesConsistency | backend/src/services/expenseService.ts:27-36 | If every stored expense names a stored group and a member of it as payer, that still holds after a successful registration. |
| ServiceProperties.AddExpenseIgnoresAmountAndLabel | backend/src/services/expenseService.ts:26-37 | Changing an expense's amount (zero and negative included) or its name never changes whether it is accepted. |
| ServiceProperties.SettlementsAfterAdd | backend/src/services/expenseService.ts:13-37 | After a successful registration, the expense's own group passes its old expenses followed by the new one to `settle`. Every other group's settlement result is unchanged. |
| ServiceProperties.SettlementInputsConsistent | backend/src/services/expenseService.ts:19-22 | In a consistent store, every expense passed to the settlement calculation was paid by one of the members passed with it. |
| Session.Step | backend/src/services/expenseService.ts:13-37 | A settlement query or a rejected registration leaves the store as it was, and groups never change. A registration is acknowledged, and its expense appended, exactly when it is admissible; otherwise it gets the not-found error when the group is missing and the payer error when it is not. A query on a missing group gets the not-found error; on a stored group it gets `settle` of that group's filtered expenses and its stored members. |
| Session.RunAppendsAdmitted | backend/src/services/expenseService.ts:13-37 | After any sequence of requests, the groups are unchanged. The expense list is the old list followed by exactly the admissible registrations, in request order. |
| Session.RunReplies | backend/src/services/expenseService.ts:13-37 | Within a run, each registration's reply (acknowledgement or which error) and whether each query fails with the not-found error depend only on the groups the run started with. A successful query's settlements depend on the expenses stored by then and are not fixed by this lemma. |
| Session.RunPreservesConsistency | backend/src/services/expenseService.ts:26-37 | Any run that starts from a consistent store ends in a consistent store. |
| Scenarios.LunchIsSaved | backend/src/services/expenseService.test.ts:37-43 | A member's 2000-unit lunch on "group1" is saved exactly as given. |
| Scenarios.LunchWithoutGroupRejected | backend/src/services/expenseService.test.ts:45-51 | With no "group1" stored, registration fails with the not-found error. |
| Scenarios.OutsiderPayerRejected | backend/src/services/expenseService.test.ts:53-63 | A payer outside the member list is rejected with the payer error. |
| Scenarios.SettlingMissingGroupRejected | backend/src/services/expenseService.ts:14-17 | Settling an unknown group fails with the not-found error. |

## Left out

- The settlement calculation (`calculateSettlements` in `utils/settlements`) is not part of this model. It appears only as the parameter `settle`, so nothing is stated about balances, rounding or the payments it produces. `settle` is a total function: the model assumes the calculation never throws, so `GetSettlements` fails only for a missing group, whereas an exception from the calculation would propagate out of the original's `getSettlements`.
- The group service and both repositories are not part of this model beyond what the service calls. `getGroupByName` is a map lookup. The stores are in memory, with no JSON files, `fs` calls or write failures.
- Group validation (empty name, fewer than two members, duplicate members) lives in code that is not part of this model. The model puts no constraint on a stored `Group`.
- Stores.SaveExpense: the expense repository's code is not part of this model. Saving is assumed to append, as the group repository's save suggests, so the store-order results (the new expense last in `ServiceProperties.SettlementsAfterAdd`, request order in `Session.RunAppendsAdmitted`) rest on that assumption.
- Stores.GetGroupByName: the lookup is keyed by name, so the case of two stored groups sharing a name (where the original would take one of them) is not modelled.
- The Express controllers, HTTP status codes and the frontend are outside the service and are not modelled.
- The error message texts are not modelled. Only the two error kinds are distinguished, and the not-found error keeps the group name it reports.
- `amount` is an unbounded integer. JavaScript's floating-point `number` and any non-integer amount are not modelled, and the service does not inspect amounts anyway.

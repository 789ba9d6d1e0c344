# Expense splitter: ledger, settlement planner and group store

The server keeps groups in memory. A group has members and expenses. Each
expense is paid by one member and shared equally by a list of members
(`splitBetween`). Every response carries the group's *snapshot*:
- the group's fields;
- the balance of every member (`computeBalances`);
- a list of transfers that squares the group (`computeSettlements`).

This project models that core in Dafny:

| file | module | models |
|---|---|---|
| `money.dfy` | `Money` | `Math.round(x * 100) / 100` on exact reals, and the `0.009` thresholds |
| `text.dfy` | `Text` | `toLowerCase` (ASCII letters) and `trim` |
| `ledger.dfy` | `Ledger` | members, expenses, groups, the balance `Map` (its entries in insertion order) and `computeBalances` |
| `sorting.dfy` | `Sorting` | the stable `Array.prototype.sort` with the planner's comparators |
| `settlements.dfy` | `Settlements` | `computeSettlements`: classify, sort, then the greedy two-index sweep |
| `snapshot.dfy` | `Snapshots` | `groupSnapshot` |
| `store.dfy` | `Store` | `groupsById`, `ensureGroup` and the handlers of `POST /groups`, `POST /groups/:groupId/members`, `GET /groups/:groupId` and `POST /groups/:groupId/expenses` |

How the source's loops are modelled:
- Each loop is a Dafny `method` with a `while` or `for` loop. Its `ensures` ties the result to a specification function: `BalancesOf`, `DebitAll` (for the inner loop, `ChargeShares`), `Classify`, `Sweep` or `SettlementsOf`.
- Lemmas then prove the properties on those functions:
  - each member's balance is what they paid, less one share per place they hold in each split;
  - balances sum to zero;
  - every member has exactly one entry;
  - every settlement runs from a debtor to a creditor and is at least a cent;
  - no member receives more than their credit or pays more than their debt;
  - when the rounded balances cancel out, everyone ends square.
- The store is a class holding `groups: map<string, Group>`. Its methods keep an invariant: member names are distinct ignoring case, and every stored expense is rounded, non-negative and paid and shared by members.

Money is an exact `real`. `Cents(x) = floor(x * 100 + 1/2)` is `Math.round(x * 100)`: ties go toward +infinity.
- After classification every amount is a whole number of cents, so the sweep works in integer cents.
- On whole-cent amounts, `> 0.009` is `>= 1` cent, `<= 0.009` is `<= 0` and `>= -0.009` is `>= 0`. `Money.DeadZone` and `Money.DeadZoneOnCents` prove this.
- The sweep's `Math.round(...)` calls are identities on whole cents (`Money.WholeCentsAreFixed`).

Three behaviours of the code that are easy to misread:
- Rounding is half up (`Math.round`), not half away from zero: -0.005 rounds to 0.
- An expense whose split is empty is skipped entirely: the payer is not credited either (server/index.js:60).
- The snapshot carries the unrounded balances from `computeBalances`; only the settlement planner rounds them.

## Model

| member | source | states |
|---|---|---|
| Money.Round2Nearest | server/index.js:79 | rounding to cents moves a value by at most half a cent (more than -1/2, at most +1/2) and keeps its cent count |
| Money.Round2Idempotent | server/index.js:194 | rounding an already rounded amount changes nothing |
| Money.WholeCentsAreFixed | server/index.js:96-99 | on a whole number of cents, `Math.round(x * 100) / 100` is the identity, so the sweep's arithmetic is exact in cents |
| Money.DeadZone | server/index.js:79-81 | `rounded > 0.009` iff the balance rounds to at least one cent; `rounded < -0.009` iff it rounds to at most minus one cent |
| Money.DeadZoneOnCents | server/index.js:92-102 | the sweep's thresholds `> 0.009`, `<= 0.009` and `>= -0.009` on whole cents are `>= 1`, `<= 0` and `>= 0` cents |
| Money.TiesRoundUp | server/index.js:79 | every tie rounds up, on both sides of zero: `c + 1/2` cents becomes `c + 1` cents for every integer `c` (so -0.005 rounds to 0, not to -0.01) |
| Text.ToLower | server/index.js:146 | the lower-cased name has the same length and holds no upper-case ASCII letter; each upper-case letter becomes the letter 32 code points above it, and every other character is kept |
| Text.ToLowerIdempotent | server/index.js:146 | lower-casing twice is lower-casing once |
| Text.TrimStartStrips | server/index.js:193 | the leading part removed is all white space, and what is left does not start with white space |
| Text.TrimEndStrips | server/index.js:193 | the trailing part removed is all white space, and what is left does not end with white space |
| Text.TrimIsSlice | server/index.js:193 | `trim()` returns a contiguous slice of the original string |
| Text.TrimStripsOnlySpace | server/index.js:193 | everything `trim()` removes, on either side, is white space |
| Text.TrimEnds | server/index.js:193 | the trimmed description neither starts nor ends with white space |
| Text.TrimIdempotent | server/index.js:193 | trimming twice is trimming once |
| Text.BlankTrimsToEmpty | server/index.js:193 | a description of white space only trims to "" |
| Ledger.ComputeBalances | server/index.js:53-70 | the two loops build exactly `BalancesOf(g)`: all members set to 0 in order, then each expense applied in turn |
| Ledger.ChargeShares | server/index.js:65-67 | the inner loop debits `share` from each split id in order, repeats included |
| Ledger.GetAbsent | server/index.js:63 | `balances.get(k) ?? 0` is 0 for a key not in the map |
| Ledger.SetGet | server/index.js:63 | after `set(k, v)`, `get(k)` is `v` and every other key reads as before |
| Ledger.SetKeys | server/index.js:56 | `set` keeps an existing key in its place and appends a new key last |
| Ledger.SetTotal | server/index.js:66 | `set(k, v)` moves the sum of the map by `v - get(k)` |
| Ledger.SetDistinct | server/index.js:56 | the map never lists a key twice |
| Ledger.SharesAddUp | server/index.js:61-67 | `splitCount` shares of `amount / splitCount` add up to exactly `amount` |
| Ledger.DebitAllTotal | server/index.js:65-67 | debiting `share` from each of the ids lowers the total by one share per id |
| Ledger.ApplyExpenseTotal | server/index.js:58-68 | one expense never changes the sum of the balances, including when its split is empty |
| Ledger.ZeroSum | server/index.js:53-70 | the balances of every group sum to exactly 0 |
| Ledger.InitBalancesZero | server/index.js:55-57 | before any expense, every key reads 0 and the total is 0 |
| Ledger.InitBalancesKeySet | server/index.js:55-57 | the initial map's keys are exactly the member ids |
| Ledger.InitBalancesInOrder | server/index.js:55-57 | with distinct member ids, the initial map lists the members in member order |
| Ledger.ApplyExpensesKeepsKey | server/index.js:58-68 | no expense removes a key from the map |
| Ledger.ApplyExpensesSameKeys | server/index.js:58-68 | expenses whose payer and split ids are already keys add no key |
| Ledger.MembersHaveBalances | server/index.js:55-57 | every member id has an entry in the returned map |
| Ledger.KeysAreMembers | server/index.js:53-70 | when member ids are distinct and every payer and split id is a member, the keys are exactly the member ids in member order |
| Ledger.KeysAreMemberIds | server/index.js:53-70 | when every payer and split id is a member, a key is in the map iff it is a member id |
| Ledger.BalancesDistinct | server/index.js:53-70 | the returned map lists no member id twice |
| Ledger.CountIsMultiplicity | server/index.js:65 | the number of times the inner loop meets an id is that id's multiplicity in the split |
| Ledger.DebitAllGet | server/index.js:65-67 | the inner loop lowers an id's balance by one share per occurrence of that id in the split, and leaves ids not in the split as they were |
| Ledger.ApplyExpenseGet | server/index.js:58-68 | one expense with a non-empty split raises the payer's balance by the full amount and lowers each split member's balance by `amount / splitCount` per occurrence; an empty split changes no balance |
| Ledger.ApplyExpensesGet | server/index.js:58-68 | the expense loop changes a member's balance by the sum, over the expenses, of those per-expense changes |
| Ledger.BalanceIsNet | server/index.js:53-68 | a member's balance is exactly the total they paid on expenses with a non-empty split, less `amount / splitCount` for each place they hold in each such split |
| Ledger.UninvolvedMemberIsZero | server/index.js:55-68 | a member who pays for and shares in no expense with a non-empty split has balance exactly 0 |
| Sorting.InsertPermutes | server/index.js:83-84 | inserting adds the element and loses nothing |
| Sorting.InsertSorted | server/index.js:83-84 | inserting into a sorted sequence keeps it sorted |
| Sorting.SortBy | server/index.js:83-84 | the sort returns a permutation of its input with rank non-increasing: creditors by descending amount, debtors by ascending amount |
| Sorting.SortStable | server/index.js:83-84 | the sort is stable: for every rank, the elements of that rank come out in input order |
| Settlements.ComputeSettlements | server/index.js:72-105 | returns exactly `SettlementsOf(g)`: classify the balances, sort both lists, then sweep |
| Settlements.ClassifyBalances | server/index.js:75-82 | the loop over the map's entries returns `Classify(balances)`: creditors (at least a cent) and debtors (at most minus a cent) in map order, each with its rounded balance |
| Settlements.SweepParties | server/index.js:86-104 | the `while` loop with indices `i`, `j` and in-place updates of the current creditor and debtor returns exactly `Sweep(creditors, debtors)` |
| Settlements.ClassifySigns | server/index.js:80-81 | every creditor holds at least a cent and every debtor owes at least a cent; no entry is both |
| Settlements.ClassifyAmounts | server/index.js:77-82 | with one entry per member, a member's credit is their rounded balance when that is at least a cent (0 otherwise); likewise for debt |
| Settlements.ClassifyTotal | server/index.js:77-82 | creditors and debtors together hold the sum of the rounded balances |
| Settlements.SortKeepsAmounts | server/index.js:83-84 | sorting keeps every member's amount and the total |
| Settlements.SortKeepsSigns | server/index.js:83-84 | sorting keeps the length and keeps creditors positive and debtors negative |
| Settlements.NextShrinks | server/index.js:101-102 | every turn passes the current creditor, the current debtor or both, so the loop terminates |
| Settlements.StepPays | server/index.js:91-98 | between a creditor and a debtor `pay` is at least a cent and takes exactly `pay` cents off the creditor's remaining credit, never below 0 |
| Settlements.StepRelieves | server/index.js:91-99 | `pay` takes exactly `pay` cents off the current debtor's debt, and the debtors left all still owe at least a cent |
| Settlements.SweepShape | server/index.js:88-104 | no more settlements than creditors and debtors together; each is at least a cent, from a debtor and to a creditor |
| Settlements.SweepReceivesAtMost | server/index.js:88-104 | no creditor receives more than their credit |
| Settlements.SweepPaysAtMost | server/index.js:88-104 | no debtor pays more than their debt |
| Settlements.SweepReceivesAll | server/index.js:88-104 | when the debts are at least the credits, every creditor receives all of their credit |
| Settlements.SweepPaysAll | server/index.js:88-104 | when the credits are at least the debts, every debtor pays all of their debt |
| Settlements.PlanShape | server/index.js:72-105 | no more settlements than map entries; each is at least a cent, from a member whose rounded balance is in debt to one whose rounded balance is in credit (so never to themselves) |
| Settlements.PlanBounds | server/index.js:72-105 | a member receives at most their rounded credit and pays at most their rounded debt; nobody both receives and pays |
| Settlements.PlanPaysAllDebts | server/index.js:72-105 | when the rounded balances sum to 0 or more, every member at least a cent in debt pays exactly their rounded debt, and every other member pays nothing |
| Settlements.PlanReceivesAllCredits | server/index.js:72-105 | when the rounded balances sum to 0 or less, every member at least a cent in credit receives exactly their rounded credit, and every other member receives nothing |
| Settlements.PlanSettlesAll | server/index.js:72-105 | when the rounded balances sum to 0, each member's rounded balance, less what they receive, plus what they pay, is 0 |
| Settlements.RoundingResidual | server/index.js:79 | rounding moves the total by at most half a cent per entry |
| Snapshots.GroupSnapshot | server/index.js:107-118 | the snapshot is the group's fields with `BalancesOf(g)` (unrounded) and `SettlementsOf(g)` |
| Snapshots.SnapshotBalances | server/index.js:108 | the snapshot's balances sum to 0 and list every member exactly once |
| Snapshots.SnapshotSettlements | server/index.js:109 | every settlement in a snapshot is at least a cent, between two different members, from a member in debt to a member in credit; no more settlements than balances |
| Snapshots.SnapshotSettlesMember | server/index.js:108-109 | each member's transfers stay within their rounded balance. When the rounded balances sum to 0 or more every debtor pays in full; when they sum to 0 or less every creditor is paid in full; when they sum to 0 everyone ends square |
| Snapshots.ThreeWayDinnerKeepsACent | server/index.js:53-118 | 10.00 paid by `a` and split between `a`, `b` and `c` gives rounded balances 667, -333 and -333 cents and the plan `b` pays `a` 333, then `c` pays `a` 333, so one cent of `a`'s credit is never settled |
| Snapshots.SnapshotResidual | server/index.js:79 | the rounded balances of a snapshot sum to within half a cent per member of zero |
| Store.FindMemberByName | server/index.js:146 | finds a member whose lower-cased name equals the lower-cased request name, and finds none only when no member matches; the member found is the first match in member order |
| Store.FindByLowerName | server/index.js:146 | two names that lower-case alike find the same member |
| Store.JoinIdempotent | server/index.js:146-153 | adding a member, then the same name in any case, returns the first call's member and leaves the group unchanged the second time |
| Store.JoinKeepsWellFormed | server/index.js:146-151 | a join keeps member names distinct ignoring case |
| Store.ValidSplit | server/index.js:186-187 | the valid split is no longer than the ids sent and holds exactly the ids sent that are member ids |
| Store.ValidSplitIsFilter | server/index.js:187 | the valid split keeps the order and the repeats of the ids sent: each member id occurs as often as it was sent, every other id not at all, and the split is a subsequence of the ids sent |
| Store.ValidateExpense | server/index.js:175-198 | accepts iff description given, amount positive, payer a member and some split id a member. Checks run in source order, each error iff every earlier check passed and its own fails: description, then amount, then payer, then split. The accepted expense has the trimmed description, the amount rounded to cents, the payer, and exactly the valid split of the ids sent |
| Store.BlankDescriptionStoredEmpty | server/index.js:175-193 | a description of white space only passes the check and is stored as "" |
| Store.TinyAmountStoredAsZero | server/index.js:179-194 | a positive amount under half a cent passes the check and is stored as 0 |
| Store.AddExpenseKeepsWellFormed | server/index.js:191-199 | appending a validated expense keeps the group well formed |
| Store.AddExpenseBalances | server/index.js:199-200 | after an expense is appended, the balances are the old balances with that expense applied |
| Store.WellFormedBalanceKeys | server/index.js:199-200 | in a group the store built, the balance map's keys are exactly the member ids |
| Store.GroupStore.constructor | server/index.js:37 | the store starts empty |
| Store.GroupStore.EnsureGroup | server/index.js:43-51 | the group under the id, or NotFound when there is none; a found group carries that id and is well formed |
| Store.GroupStore.CreateGroup | server/index.js:121-136 | stores an empty group named `name` (or "New Group" when it is missing or empty) under the new id; every other group is unchanged; answers with the id and the new group's snapshot |
| Store.GroupStore.GetGroup | server/index.js:159-167 | the group's snapshot, or NotFound |
| Store.GroupStore.AddMember | server/index.js:138-157 | the name error iff no name, checked before the lookup; NotFound iff a name and no such group; success iff a name and the group exists. Errors change nothing. Otherwise the group becomes the find-or-append result and the reply carries the member, whether it is new, and the snapshot |
| Store.GroupStore.AddExpense | server/index.js:169-206 | NotFound iff no such group (checked first). Otherwise accepted iff the request is acceptable, and a rejection carries the validation's error; a rejection changes nothing; an acceptance appends exactly the validated expense and answers with it and the new snapshot |

## Left out

- The Express app, CORS and the `devOriginAllowed` regex, `server.listen` and the error middleware (server/index.js:1-34, 221-231) are HTTP plumbing. HTTP status codes are `Store.Error` values: `NotFound` is the 404, `BadRequest(reason)` the 400; `Store.Message` gives the exact `error` text of each.
- The Socket.IO wiring (`join_group`, server/index.js:208-219) and the `group_updated` broadcasts are messaging. The snapshot they would carry is the one the handlers return.
- `generateId` (Math.random, server/index.js:39-41) and `new Date().toISOString()` are randomness and a clock. Ids and timestamps are method parameters.
- Store.GroupStore.CreateGroup: like the server, it does not check the new group id against ids in use. A repeated id replaces the stored group, as `Map.set` does.
- Store.GroupStore.AddMember: like the server, it does not check the new member id against ids in use.
- IEEE-754 floating point is left out: money is exact `real`. Float drift, non-finite numbers and very large amounts are not modelled, and `amount / splitCount` is exact.
- Text.ToLower: lower-cases the ASCII letters only. Unicode case mapping (`toLowerCase` on non-ASCII letters) is not modelled.
- The coercions `Number(amount)`, `String(name)`, the `typeof` and `Array.isArray` checks and `req.body ?? {}` are taken as already applied. A missing, non-string or non-finite field arrives as `None`, a non-array split as `[]`, and a member name as a string. The source tests truthiness on the raw value (`name || 'New Group'` at server/index.js:127, `!name` at server/index.js:142), so the model differs for non-string names: a truthy non-string group name such as `5` is kept by the server but becomes "New Group" here, and a falsy non-string member name such as `0` is refused by the server with the name error while here it would arrive as the string "0".
- The settlement amount the server reports is `Dollars(cents)`. The model keeps the integer `cents`.
- In-place `Array.prototype.sort` is modelled as a functional stable insertion sort (`Sorting.SortBy`) returning the sorted sequence. Only the sweep loop updates its arrays in place.
- Store.ValidateExpense: the checks see the raw description and amount, before `trim()` and rounding. So a description of white space only is stored as "" (`Store.BlankDescriptionStoredEmpty`), and a positive amount under half a cent is stored as 0 (`Store.TinyAmountStoredAsZero`). The stored-expense invariant therefore promises only a non-negative amount.
- The client (`client/`) is a user interface and fetch/socket wrappers. It is not part of this model.

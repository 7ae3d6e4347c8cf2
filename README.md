# ExpenseIncome timeline and store, modelled in Dafny

This project models the logic core of the ExpenseIncome budgeting front end.

- **Timeline projector** (`buildTimeline`). It turns every income source, bill and misc spending entry into one signed event. It sorts the events by ISO date, and on equal dates puts income before bill before misc. It then folds the opening balance forward and records the balance after each event.
- **Store actions.** These are `load`, `addIncome`, `addBill`, `addMisc` and the three deletes. The model includes the weekday arithmetic of `nextDateForDay` and the start-date choice between a one-off date and the next matching weekday.

Files:

- `ledger.dfy` (module `Ledger`): the record shapes `Setting`, `IncomeSource`, `Bill`, `MiscSpending` and the `Schedule` tags.
- `order.dfy` (module `EventOrder`): the event kinds, the `kindOrder` ranks, lexicographic date comparison and the sort comparator.
- `sort.dfy` (module `EventSort`): the stable sort. `Sort` is a functional insertion sort. `SortInPlace` is the in-place array method, proved equal to `Sort`. The lemmas prove that the output is ordered, is a permutation of the input and is stable. `StableSortIsUnique` proves that every stable sort under this comparator gives the same sequence, so the choice of algorithm does not matter.
- `timeline.dfy` (module `Timeline`): `BuildTimeline` has three push loops into a fresh array, an in-place sort and a balance loop. It is proved equal to the specification `TimelineOf`, which is `Project(opening, Sort(Events(...)))`. The lemmas state the row count, the ordering, stability, the running balance, the net change and the worked example from the test file.
- `store.dfy` (module `Store`): `IndexOf`, the JavaScript remainder and the weekday offset, the start-date choice, the filter-by-id `Without` and the class `AppStore`. The class holds the setting and the three lists, and has one method per action.

The TypeScript field `label` is called `labelText` here, because `label` is a Dafny keyword.

The record shapes carry schedules, end dates, exceptions and an `active` flag, but the code acts on none of them. The model follows the code:

- Each income source and bill contributes exactly one event, at its `startDate`. Schedules are not expanded into occurrences.
- `active`, `endDate`, `exceptions`, `schedule` and `openingBalanceDate` are never read. `TimelineReadsOnly` proves that they make no difference to the timeline.
- No event is excluded for falling before the opening date.
- There is no series editing ("this occurrence" or "this and future").

## Model

| member | source | states |
|---|---|---|
| EventOrder.KindOrder | frontend/src/balance.ts:11 | Each event kind has a rank between 0 and 2 (income 0, bill 1, misc 2). |
| EventOrder.Compare | frontend/src/balance.ts:29 | The sort comparator returns 0 exactly when two events have the same date and kind. On different dates its sign follows the date comparison. On equal dates it is negative exactly when the first kind has the lower rank. |
| EventOrder.LexCompare | frontend/src/balance.ts:29 | Date comparison as lexicographic order. The result is -1, 0 or 1, and it is 0 exactly when the strings are equal. |
| EventOrder.LexCompareAntisymmetric | frontend/src/balance.ts:29 | Swapping the two dates negates the comparison. |
| EventOrder.LexCompareTransitive | frontend/src/balance.ts:29 | Strict date order is transitive. |
| EventOrder.PrecedesTransitive | frontend/src/balance.ts:29 | The comparator is a total preorder: "may come before" is transitive across dates and kind ranks. |
| EventOrder.PrecedesMeaning | frontend/src/balance.ts:11 | An event that may come before another has an earlier or equal date. On an equal date its kind rank is not higher (income 0, bill 1, misc 2). |
| EventSort.Insert | frontend/src/balance.ts:29 | Inserting one event into a sorted sequence adds exactly one element. |
| EventSort.Sort | frontend/src/balance.ts:29 | Sorting keeps the number of events. `SortPermutes`, `SortSorted` and `SortStable` state its content, order and stability. |
| EventSort.InsertPermutes | frontend/src/balance.ts:29 | Insertion adds exactly the inserted event to the multiset. |
| EventSort.SortPermutes | frontend/src/balance.ts:29 | The sorted output is a permutation of the events. |
| EventSort.InsertSorted | frontend/src/balance.ts:29 | Insertion into a sorted sequence keeps it sorted. |
| EventSort.SortSorted | frontend/src/balance.ts:29 | Every earlier event in the output may precede every later one under the comparator. |
| EventSort.InsertStable | frontend/src/balance.ts:29 | Insertion keeps the new event after every earlier event with the same date and kind. |
| EventSort.SortStable | frontend/src/balance.ts:29 | For every (date, kind) key, the events with that key appear in input order. |
| EventSort.SortedUnique | frontend/src/balance.ts:29 | Two sorted sequences that agree on the events of every key are equal. |
| EventSort.StableSortIsUnique | frontend/src/balance.ts:29 | Any sorted sequence that keeps the input order within every key is exactly `Sort(s)`, whichever stable algorithm produced it. |
| EventSort.SortInPlace | frontend/src/balance.ts:29 | The in-place sort of the events array leaves `Sort(old(a[..]))` in the array. |
| EventSort.InsertInPlace | frontend/src/balance.ts:29 | Moving `a[i]` left past greater elements leaves the insertion of `a[i]` into `a[..i]`. The rest of the array is untouched. |
| Timeline.IncomeEvents | frontend/src/balance.ts:20-22 | One event per income source, in order, each with the source's start date, name and +amount. |
| Timeline.BillEvents | frontend/src/balance.ts:23-25 | One event per bill, in order, each with the bill's start date, name and −amount. |
| Timeline.MiscEvents | frontend/src/balance.ts:26-28 | One event per misc entry, in order, each with the entry's date, description and −amount. |
| Timeline.Events | frontend/src/balance.ts:19-28 | The event list has exactly one event per income, bill and misc entry. |
| Timeline.EventsLayout | frontend/src/balance.ts:20-28 | The events are laid out as incomes, then bills, then misc. Each keeps its source's date and label. Incomes are +amount; bills and misc are −amount. |
| Timeline.TimelineOf | frontend/src/balance.ts:13-37 | What `buildTimeline` returns: one row per income, bill and misc entry, the fold of the opening balance over the sorted events. |
| Timeline.PushEvents | frontend/src/balance.ts:19-28 | The three push loops fill a fresh array with exactly `Events(incomes, bills, misc)`. |
| Timeline.FoldBalance | frontend/src/balance.ts:30-35 | The balance loop returns the fold `Project(opening, events)`. |
| Timeline.BuildTimeline | frontend/src/balance.ts:13-37 | `buildTimeline` returns `Project(opening, Sort(Events(...)))`. It builds the events array fresh and modifies no input. |
| Timeline.Project | frontend/src/balance.ts:30-35 | The fold produces one row per event. |
| Timeline.ProjectSnoc | frontend/src/balance.ts:32-35 | One more event adds one row. That row carries the opening balance plus all amounts so far. |
| Timeline.ProjectRow | frontend/src/balance.ts:33-34 | Row k keeps event k's date, kind, label and amount as its delta. Its balance is the opening balance plus the amounts of events 0..k. |
| Timeline.ProjectKeepsEvents | frontend/src/balance.ts:34 | Dropping the balances from the rows gives back exactly the folded events. |
| Timeline.ProjectRunningBalance | frontend/src/balance.ts:30-35 | The first row is the opening balance plus its delta. Every later row is the previous row's balance plus its own delta. |
| Timeline.ProjectNet | frontend/src/balance.ts:30-35 | The last balance minus the opening balance is the sum of all amounts. |
| Timeline.TotalSort | frontend/src/balance.ts:29 | Sorting does not change the sum of the amounts. |
| Timeline.TotalEvents | frontend/src/balance.ts:20-28 | The signed amounts add up to incomes minus bills minus misc spending. |
| Timeline.TimelineRows | frontend/src/balance.ts:20-36 | The timeline has one row per income, bill and misc entry, whatever the schedules or `active` flags. It is empty exactly when all three inputs are empty. |
| Timeline.TimelineIsStableSortOfEvents | frontend/src/balance.ts:29-34 | The rows' events are a permutation of the constructed events. Events with the same date and kind keep their input order. |
| Timeline.TimelineOrdered | frontend/src/balance.ts:11 | Rows are in ascending date order. Rows with the same date are in the order income, bill, misc. |
| Timeline.TimelineBalances | frontend/src/balance.ts:30-35 | The first balance is the opening balance plus delta 0. Each later balance is the previous one plus its delta. Row k is the opening balance plus deltas 0..k. |
| Timeline.TimelineNet | frontend/src/balance.ts:30-36 | The last balance minus the opening balance equals the sum of all deltas, which is incomes − bills − misc. |
| Timeline.TimelineReadsOnly | frontend/src/balance.ts:13-37 | The only field of the setting that is read is `openingBalanceCents`. For an income or bill, only the start date, name and amount are read. Schedule, `active`, end date and exceptions make no difference. |
| Timeline.Scenario | frontend/src/balance.test.ts:7-48 | Inputs: opening 100000, salary 200000 on 2025-01-01, coffee 500 on 2025-01-02, rent 80000 on 2025-01-03. The timeline has three rows, with balances 300000, 299500 and 219500. |
| Store.IndexOf | frontend/src/store.ts:43 | `indexOf` returns -1 exactly when the name is absent. Otherwise it returns the first position holding the name. |
| Store.NextDateOffset | frontend/src/store.ts:42-48 | The offset `nextDateForDay` adds to today's date is between 0 and 6 days. |
| Store.JsRem | frontend/src/store.ts:45 | JavaScript's `%`: for a non-negative dividend the remainder is in 0..n−1, for a negative one in −(n−1)..0. |
| Store.WeekdayOffset | frontend/src/store.ts:45 | For any `indexOf` result from −1 to 6, `(target − today + 7) % 7` is a number of days in 0..6. Counting that many days on from today lands on weekday `target` modulo 7, which is Saturday for −1. |
| Store.NamePosition | frontend/src/store.ts:43 | In a list of seven different names, a listed name sits only at the position `indexOf` returns. |
| Store.OffsetReachesName | frontend/src/store.ts:43-45 | The offset for a listed name lands on a day with that name. |
| Store.OffsetReachesNameFirst | frontend/src/store.ts:43-45 | In a list of different names, no smaller offset lands on that name. |
| Store.OffsetForTodaysName | frontend/src/store.ts:43-45 | In a list of different names, the name of today's weekday gives offset 0. |
| Store.OffsetForUnlistedName | frontend/src/store.ts:43-45 | An unlisted name (`indexOf` gives −1) gives offset 6 − today. |
| Store.OffsetFirstHit | frontend/src/store.ts:45 | The offset lands on the target weekday, and no smaller offset does. |
| Store.NextDateOffsetMeaning | frontend/src/store.ts:42-46 | A recognised day name gives the first day on or after today with that name, so today is used when it already matches. An unrecognised name is not rejected and gives the offset 6 − today (Saturday). |
| Store.StartDate | frontend/src/store.ts:78 | For `oneoff`, the start date is `when` itself. For any other schedule, it is the calendar date at most 6 days after today. |
| Store.StartDateChoice | frontend/src/store.ts:78 | For `oneoff`, the start date is `when` unchanged. Otherwise it is the calendar date k ≤ 6 days ahead, where k is the first day falling on the named weekday. |
| Store.Without | frontend/src/store.ts:117 | Filter by id: no remaining entry has the deleted id. |
| Store.WithoutCount | frontend/src/store.ts:117 | Entries with the id are removed completely. Every other entry keeps its number of occurrences. |
| Store.WithoutKeepsOrder | frontend/src/store.ts:121 | Deleting keeps each other entry in place relative to the rest of the list. |
| Store.DeleteUndoesAdd | frontend/src/store.ts:89 | Suppose an entry is appended and no earlier entry shares its id. Deleting that id then gives back the list from before the append. |
| Store.DefaultSetting | frontend/src/store.ts:62-69 | The default setting has id `singleton`, opening balance 0 and today's date as opening date. |
| Store.AppStore.constructor | frontend/src/store.ts:50-54 | The initial store has no setting and three empty lists. |
| Store.AppStore.Load | frontend/src/store.ts:55-76 | With no stored setting, the default one is installed and written. Otherwise the stored one is used unchanged and nothing is written. The three lists are replaced by the stored ones. |
| Store.AppStore.AddIncome | frontend/src/store.ts:77-90 | Exactly one income source is appended at the end, with `rrule` null, `active` true and the chosen start date. Earlier entries and the other lists are unchanged. |
| Store.AppStore.AddBill | frontend/src/store.ts:91-104 | Exactly one bill is appended at the end, with `rrule` null, `active` true and the chosen start date. Earlier entries and the other lists are unchanged. |
| Store.AppStore.AddMisc | frontend/src/store.ts:105-114 | Exactly one misc entry is appended at the end. The other lists are unchanged. |
| Store.AppStore.DeleteIncome | frontend/src/store.ts:115-118 | The income list becomes `Without(old list, id)`, so no entry has that id. The other lists are unchanged. |
| Store.AppStore.DeleteBill | frontend/src/store.ts:119-122 | The bill list becomes `Without(old list, id)`, so no entry has that id. The other lists are unchanged. |
| Store.AppStore.DeleteMisc | frontend/src/store.ts:123-126 | The misc list becomes `Without(old list, id)`, so no entry has that id. The other lists are unchanged. |

## Left out

- Persistence and asynchrony: the `db.*` reads and writes, `await`, `Promise.all`, and zustand's `create`/`set`. `set` is modelled as field assignment. `Load` takes the stored records as parameters. It returns the settings record it would `put`, instead of writing it.
- Id generation (`uuid()`): ids are parameters of the add actions.
- The clock and time zones in `nextDateForDay` and `load`. Today's weekday is a parameter, and so is the calendar (`dateAfter(n)`, the ISO date n days after today). Also not modelled: `new Date()`, `setDate`, `toISOString`, and the mismatch between local `getDay` and UTC `toISOString`. `load`'s opening date is a parameter as well.
- `localeCompare` locale rules: dates are compared lexicographically by character. This matches `localeCompare` only for fixed-width `YYYY-MM-DD` strings.
- JavaScript numbers: amounts are unbounded integers. Floating point and the 2^53 limit are not modelled.
- The engine's sort algorithm: it is modelled as insertion sort. `StableSortIsUnique` shows that any stable sort with this comparator gives the same result.
- Input immutability: `buildTimeline`'s inputs are value sequences in the model. `BuildTimeline` has no `modifies` clause, so it modifies nothing outside its fresh events array.
- Store.JsRem: the contract gives only the range and sign of JavaScript's remainder, not its value. The weekday offset applies it only to operands in 0..13, and what the offset means is stated by `WeekdayOffset` and `OffsetFirstHit`.
- `frontend/src/App.tsx` (form state, float amount parsing, display formatting) is not part of this model.
- `frontend/src/db.ts` beyond the record shapes (the Dexie schema, `LedgerEntry`, `Tag`) is not part of this model.
- Recurrence expansion, exceptions, end dates, active filtering and series editing: the code does not implement them, so they are not modelled.

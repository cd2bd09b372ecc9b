# Expense tracker ledger: a Dafny model

This project models the part of the expense tracker app that holds logic.
That is the transaction ledger kept by `TransactionProvider`, and the views
three screens derive from it. No rendering is modelled.

- **Ledger store** (`Ledger`, `ledger.dfy`). The class `TransactionStore`
  holds the ordered list of records. Its methods are:
  - the load step with its id repair (`Load`, which uses the loop `MigrateLoaded`);
  - `Add`, `Delete` and `Clear`.

  A ghost log `requests` records the requests the provider issues to the
  durable store under the key `"@transactions"`. The persist-on-change effect
  writes the whole list after each state replacement, including on mount.
  The log therefore always ends with the current ledger (`Valid`).
  `makeId` is an oracle: `Add` takes the id as a parameter `newId`, and the
  load step takes a function `ids` from record position to id.
- **Record values** (`Values`, `values.dfy`). A record is `Tx`. Its `id` is
  `Option<JsValue>`, so an absent key (None) differs from a present falsy
  value such as `""`, `0` or `null`. `{ id: makeId(), ...t }` puts the
  spread after the fresh id. A present `id` key therefore always wins, even
  a falsy one. Only a record with no `id` key at all receives a fresh id.
  This is modelled as written (`Ledger.IdThenSpread`, `Ledger.WithId`).
  Such a record still sets the repair's `changed` flag, so it is written back.
- **Insertion-ordered objects** (`JsObject`, `jsobject.dfy`). `Dict` is a
  plain object used as a dictionary. `Put` is `o[k] = v`. `keys` is
  `Object.keys`, in first-assignment order.
- **Home screen** (`Home`, `home.dfy`). The `totals` memo holds income,
  expense, balance, the usage ratio and the last record.
- **Summary screen** (`Summary`, `summary.dfy`). The `totals` memo holds
  income, expense, what is left and the expense breakdown by category. The
  pie chart entries are built from the breakdown.
- **Calendar screen** (`Calendar`, `calendar.dfy`). This covers the records
  bucketed by day (`byDate`), the marking map and the selected-day list.

Each fold the screens write as `filter`/`reduce` is a function over
`seq<Tx>`. Each one is connected to a one-pass reference definition:
`KindTotal`, `CategorySpend` or `OnDay`. The in-place `forEach` loops
(`byCategory`, `byDate`, `marked`) are methods with loop invariants. They
are proved against those functions.

## Model

| member | source | states |
|---|---|---|
| Ledger.WithId | context/TransactionContext.js:45 | A record with a truthy id, or with any `id` key present, is stored exactly as given. A record without an `id` key gets the oracle's id. Every other field is the input's. The result has a truthy id iff the input had one or had no `id` key. |
| Ledger.TransactionStore.Add | context/TransactionContext.js:44-47 | The list grows by one. The earlier records are unchanged and in order, and the repaired record comes last. One write of the new list is issued, and the log still ends with the ledger. |
| Ledger.IdThenSpread | context/TransactionContext.js:23 | `{ id: makeId(), ...t }`: every field but `id` is the input's. A present `id` key, whatever its value, overwrites the fresh id. Only an absent key leaves the fresh id, which is truthy. |
| Ledger.Remove | context/TransactionContext.js:50 | Never longer than the input. It keeps exactly the records whose id differs from the argument, so every matching record goes. |
| Ledger.RemoveKeepsOrder | context/TransactionContext.js:49-51 | The surviving records are the input's records at an increasing sequence of positions. Those positions are exactly the ones whose id differs, so the relative order is preserved. |
| Ledger.RemoveAbsentId | context/TransactionContext.js:50 | Deleting an id that no record carries leaves the list unchanged. |
| Ledger.DeleteUndoesAdd | context/TransactionContext.js:44-51 | Deleting the id of a record just added gives back the earlier list, when no earlier record shares that id. The length drops by exactly one. |
| Ledger.TransactionStore.Delete | context/TransactionContext.js:49-51 | The new list is `Remove` of the old. No record keeps the id, and an absent id changes nothing. One write of the new list is issued. |
| Ledger.TransactionStore.Clear | context/TransactionContext.js:53-56 | The list becomes empty. A removal of the key is issued, followed by the effect's write of the empty list. |
| Ledger.TransactionStore.constructor | context/TransactionContext.js:10 | The ledger starts empty, and the mount-time write of the empty list is the only request. |
| Ledger.Migrate | context/TransactionContext.js:20-26 | The repair preserves length and order, and keeps every field other than `id`. A record with an `id` key is returned untouched. A record without one gets the oracle's id for its position. |
| Ledger.MigrateIdempotent | context/TransactionContext.js:20-26 | Repairing an already repaired list changes nothing, whatever ids the oracle would supply. |
| Ledger.MigrateLoaded | context/TransactionContext.js:19-26 | The loop builds exactly the repaired list. `changed` is true iff at least one loaded record has a falsy id. |
| Ledger.TransactionStore.Load | context/TransactionContext.js:13-37 | A missing, empty or unparsable blob leaves the ledger as it was. A parsed one is repaired and replaces it. The repaired list is written back an extra time only when something changed, and the effect's mirror write comes after it. |
| Ledger.Loaded | context/TransactionContext.js:16-27 | A missing, empty or unparsable blob leaves the ledger as it was. A parsed array gives one repaired record per stored record, each equal to the stored one apart from its `id`. `Ledger.Migrate` states the repair itself. |
| Ledger.ReloadAfterClear | context/TransactionContext.js:53-56 | After a clear, a restart loads an empty ledger. This holds whichever of the key removal and the empty-list write completes last. |
| Ledger.ReloadRestoresLedger | context/TransactionContext.js:39-42 | When the last write was the ledger and every record has an id, a restart loads exactly that ledger. |
| JsObject.Put | screens/SummaryScreen.js:23 | `o[k] = v`. It has no contract of its own: `JsObject.PutWellFormed` states the key order it produces, and `JsObject.SumByPut` states its effect on a sum over the entries. |
| JsObject.PutWellFormed | screens/SummaryScreen.js:23 | Assigning to a key keeps the key order free of repeats and in step with the entries. A new key goes at the end, and an existing key keeps its place. |
| JsObject.SumByPut | screens/SummaryScreen.js:23 | After an assignment, the sum over the object's entries loses the old entry's measure and gains the new one's. |
| Home.OfKind | screens/HomeScreen.js:24 | The filter is never longer than its input. `Home.OfKindSelects` proves it keeps exactly the records of the type, and `Home.OfKindAppend` that it keeps them in ledger order. |
| Home.SumAmounts | screens/HomeScreen.js:25 | The `reduce` over `Number(t.amount or 0)`. It has no contract of its own: `Home.FilterThenSum` equates it, after the filter, with the one-pass `KindTotal`. |
| Home.OfKindSelects | screens/HomeScreen.js:24 | The filter keeps exactly the records of the given type. |
| Home.FilterThenSum | screens/HomeScreen.js:23-28 | Filtering by type and then summing each amount equals the one-pass total of that type's amounts, with a missing amount counting as zero. |
| Home.Usage | screens/HomeScreen.js:30 | Usage is at most 1. It is 0 when income is not positive. It is expense/income when that is at most 1, and exactly 1 when expense reaches income. It is non-negative for a non-negative expense. |
| Home.HomeTotals | screens/HomeScreen.js:22-35 | Income and expense are the per-type totals, and balance is their difference. Usage equals `Usage(income, expense)`: 0 when income is not positive, otherwise expense/income capped at 1. `last` is the final record, and it is null iff the ledger is empty. |
| Home.TotalsAfterAppend | screens/HomeScreen.js:23-28 | Appending a record moves only the total of its own type, by its amount. A record of any other type changes no total, only `last`. |
| Home.UsageInUnitInterval | screens/HomeScreen.js:30 | With no negative amounts, usage lies between 0 and 1. |
| Home.EmptyLedgerTotals | screens/HomeScreen.js:22-35 | An empty ledger shows zero income, expense, balance and usage, and no last record. |
| Home.TotalsExample | screens/HomeScreen.js:22-35 | An income of 100 followed by an expense of 40 gives balance 60, usage 0.4, and the expense as last record. |
| Summary.CategoryOf | screens/SummaryScreen.js:22 | The category is never empty. A missing or empty category becomes "Other", and any other category is kept. |
| Summary.Breakdown | screens/SummaryScreen.js:21-24 | The `forEach` fold over the expense records. It has no contract of its own: `Summary.BreakdownWellFormed` and `Summary.BreakdownAppend` state its key order and each step. |
| Summary.ByCategory | screens/SummaryScreen.js:20-24 | `byCategory`, which folds only the expense records. It has no contract of its own: `Summary.ByCategoryKeys`, `Summary.ByCategoryValues` and `Summary.ByCategorySumsToExpense` state its keys, its totals and their sum. |
| Summary.ByCategoryAppend | screens/SummaryScreen.js:21-23 | An expense adds its amount to its category's running total, and a new category opens at the end of the key order. A record that is not an expense leaves the breakdown unchanged. |
| Summary.BreakdownWellFormed | screens/SummaryScreen.js:20-24 | The breakdown's key order has no repeats and lists exactly its entries. |
| Summary.ByCategoryKeys | screens/SummaryScreen.js:20-24 | The keys are exactly the defaulted categories of the expense records. |
| Summary.ByCategoryValues | screens/SummaryScreen.js:21-23 | Each category's total is what the expense records spent under it. A category that is not listed had nothing spent. |
| Summary.ByCategorySumsToExpense | screens/SummaryScreen.js:18-24 | The category totals add up to the expense total. |
| Summary.FoldByCategory | screens/SummaryScreen.js:20-24 | The in-place loop builds exactly `Breakdown` of the expense records, and the result is well formed. |
| Summary.ComputeSummary | screens/SummaryScreen.js:16-26 | Income and expense agree with the home screen's totals, and `left` is their difference. The breakdown is exactly `ByCategory`, and its totals add up to the expense total. |
| Summary.PieData | screens/SummaryScreen.js:28-38 | There is one entry per category key, and entry `i` is named by the `i`-th key of `Object.keys`, so the names are distinct. Each entry's amount is that category's total, and every category has an entry. Entry `i` has colour `colorList[i % 5]`. |
| Summary.PieTotalIsCategorySum | screens/SummaryScreen.js:28-38 | For any well-formed breakdown, the pie entries' amounts total its category sum. |
| Summary.PieSumsToExpense | screens/SummaryScreen.js:28-38 | The slices of the pie add up to the expense total. |
| Summary.BreakdownExample | screens/SummaryScreen.js:20-24 | Expenses Food 30, Food 20 and Fuel 10 give keys Food then Fuel, with totals 50 and 10. |
| Calendar.DateKey | screens/CalendarScreen.js:27-29 | A date of up to ten characters is its own key. A longer one is cut to its first ten. A missing or empty date falls under the supplied `today`. |
| Calendar.Buckets | screens/CalendarScreen.js:25-32 | The `byDate` fold. It has no contract of its own: `Calendar.BucketIsDay`, `Calendar.OneBucketPerRecord` and `Calendar.BucketSizesSum` state what each bucket holds. |
| Calendar.BucketsWellFormed | screens/CalendarScreen.js:25-32 | The key order of `byDate` has no repeats and lists exactly its buckets. |
| Calendar.OnDayMembers | screens/CalendarScreen.js:26-31 | A record is among a day's records iff it is in the ledger and its key is that day. |
| Calendar.BucketIsDay | screens/CalendarScreen.js:25-32 | A day has a bucket iff some record falls on it. The bucket is exactly that day's records, in ledger order. |
| Calendar.OneBucketPerRecord | screens/CalendarScreen.js:26-31 | Every record lies in exactly one bucket, the one of its own key. |
| Calendar.BucketSizesSum | screens/CalendarScreen.js:25-32 | The bucket sizes add up to the ledger length. |
| Calendar.DatedRecordBucket | screens/CalendarScreen.js:27-28 | A record dated `YYYY-MM-DD` is listed under that very day, whatever `today` is. |
| Calendar.ComputeByDate | screens/CalendarScreen.js:24-34 | The in-place loop builds exactly `Buckets`. Each bucket is its day's records in ledger order, no bucket is empty, and every record's day has a bucket. |
| Calendar.ComputeMarked | screens/CalendarScreen.js:36-45 | The marked days are the `byDate` keys plus the selected day when one is selected. Every other day has `marked: true` and the dot colour. The selected day gets `selected: true` and the selected colour, and keeps its dot iff it has a bucket. |
| Calendar.ListForSelected | screens/CalendarScreen.js:47 | `selected ? byDate[selected] or [] : []`. It has no contract of its own: `Calendar.SelectedDayList` states what it returns over `Buckets`. |
| Calendar.SelectedDayList | screens/CalendarScreen.js:47 | The list is empty when nothing is selected. Otherwise it is exactly the selected day's records in ledger order, which is empty when that day has no bucket. |
| Calendar.MarkedCoversBuckets | screens/CalendarScreen.js:36-40 | A day is a `byDate` key, and so gets a dot, iff some record falls on it. |

## Left out

- The durable store's I/O and JSON: `getItem`, `setItem`, `removeItem`, `JSON.parse` and `JSON.stringify` are foreign asynchronous calls. The model records the requests in issue order as a ghost log. It treats a stored list as reading back to the same records, and it folds every read or parse failure into `Blob.Missing` or `Blob.Malformed`.
- Completion order of asynchronous requests: the log holds issue order. Only `Ledger.ReloadAfterClear` looks at both completion orders of the removal and the mirror write. Failures swallowed by `.catch` are not modelled.
- React scheduling: each state update is applied at once, and the persist effect's write follows it. Batching of updates and functional-updater timing are not modelled.
- `makeId`: the clock and the random number are an oracle. The model assumes only that the id is a non-empty string, and claims no uniqueness.
- The current date in the Asia/Karachi time zone (`toLocaleDateString`) is the parameter `today`.
- Floating point and `toFixed(2)`: amounts are exact reals.
- Non-numeric amounts: `Number` of a string that is not a number gives NaN, which the model cannot represent. `Values.AmountOf` treats an amount only as a number or as missing.
- Numeric ids are integers, so NaN ids are not modelled.
- Object keys: `Object.keys` places integer-like keys first in numeric order. The model keeps insertion order for all keys, since dates and category names are not integer-like. Keys inherited from `Object.prototype` (such as `"constructor"`) are also not modelled.
- Records are objects: a stored array element that is not an object is not modelled.
- Ledger.ReloadRestoresLedger: assumes stored records read back unchanged. It therefore also covers an `id` key holding `undefined` (`Some(Undefined)`). `JSON.stringify` drops such a key, so in the app that record would come back without an id and receive a fresh one.
- The pie entries' legend font colour and size, and the colour function's `opacity` argument: they are presentation only. The theme's selected colour is a parameter of `Calendar.ComputeMarked`.
- The other screens, the settings contexts (theme, user, currency) and navigation: they hold no ledger logic.

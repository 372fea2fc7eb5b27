# go-finances ledger arithmetic, modelled in Dafny

go-finances is a React Native personal-finance app. Users register income
("positive") and expense ("negative") transactions. The app keeps them in the
device's key-value store under a per-user key. Three screens hold the app's
arithmetic, and this project lifts that arithmetic out of them:

- **Dashboard** (`dashboard.dfy`, module `Dashboard`): one pass over the
  user's records adds up the entries total and the expense total. The net total
  is their difference. Each card gets a "last transaction" label from
  `getLastTransaction`, the latest date among the records of one type or the
  sentinel `0`. The records are also reformatted for the list.
- **Resume** (`resume.dfy`, module `Resume`): keeps the expenses of the selected
  month and year and totals them. It then walks the category catalog in order,
  sums each category's expenses, and emits a slice with a whole-number
  percentage for every category with a positive sum. The month selector moves
  the selected date one month forward or back.
- **Register** (`register.dfy`, module `Register`): the form schema, two guards
  (a type and a real category must be selected), and the read-append-write of
  the new record into the user's stored list, followed by a reset of the
  selections.
- **Ledger** (`ledger.dfy`, module `Ledger`): the shared record type, the store
  (`map<string, seq<Transaction>>`), the per-user key and the sum of amounts.

Modelling choices:

- The record's `type` field is `kind: string`. It stays a string because the
  Dashboard treats every value other than `"negative"` as an entry.
- Amounts are integer cents and strictly positive (`Cents`). The schema admits
  only positive amounts, and Register is the only writer.
- Dates are `(year, month, day)` and compared lexicographically. That is the
  order of their timestamps at day granularity, which is all the labels show.
- Locale text is represented by constructors: `DayOfMonth`, `Label`, `Money`,
  `ShortDate`. The pt-BR strings are given in comments.
- `toFixed(0)` of `sum / total * 100` is computed on exact values and rounds
  halves up: `(200 * sum + total) / (2 * total)`.
- Screens that only read (Dashboard, Resume) are methods. They take a snapshot
  of the store and return what the screen would put in its state. The Register
  screen's selections are fields of a class. The store is a class whose
  `SetItem` replaces one key.

The model follows the code in these places:

- Entries total: the code counts every record whose type is not `"negative"`,
  not only income (`src/screens/Dashboard/index.tsx:90-94`). The "last entry"
  label looks only at `"positive"` records.
- Month navigation: the code calls `addMonths` / `subMonths` from date-fns.
  Both clamp the day to the length of the target month. So 31 January moves to
  29 February 2024, and back to 29 January (`Resume.ClampingRoundTrip`), not to
  1 March.
- Malformed stored records: the code has no skip-and-count step for them, so
  neither does the model.

## Model

| member | source | states |
|---|---|---|
| `Ledger.KeyInjective` | src/screens/Register/index.tsx:81 | two different user ids never share a storage key |
| `Ledger.SumAppend` | src/screens/Resume/index.tsx:80-85 | a record added at the end adds its amount to the total, and a total of positive amounts is never negative |
| `Dashboard.Latest` | src/screens/Dashboard/index.tsx:57-62 | the maximum of a non-empty list of dates is one of them and no date in the list is later |
| `Dashboard.OfKind` | src/screens/Dashboard/index.tsx:51 | the filter keeps exactly the records of the requested type |
| `Dashboard.OfKindAppend` | src/screens/Dashboard/index.tsx:51 | filtering a list with one more record gives the old result plus that record when it has the type |
| `Dashboard.GetLastTransaction` | src/screens/Dashboard/index.tsx:47-69 | the sentinel 0 exactly when no record has the type; otherwise the day and month of a record of that type that no other record of that type postdates |
| `Dashboard.TotalsAppend` | src/screens/Dashboard/index.tsx:85-94 | one more record adds its amount to the expense total when its type is "negative" and to the entries total otherwise, never to both |
| `Dashboard.EachRecordCountedOnce` | src/screens/Dashboard/index.tsx:85-94 | entries total plus expense total is the sum of all amounts: every record is counted exactly once |
| `Dashboard.Highlights` | src/screens/Dashboard/index.tsx:115-156 | the entries card carries the entries total and the expenses card the expense total; net = entries − expenses; each label is "Não há transações" exactly when no record of its type exists (the net label exactly when no "negative" record exists); when one exists, the entries card says "Última entrada" and the expenses card "Última saída" with the day and month of a latest record of their type, and the net card says "01 a" the same day as the expenses card |
| `Dashboard.LoadTransaction` | src/screens/Dashboard/index.tsx:80-160 | the one-pass loop yields exactly `Highlights` of the stored list; the formatted list has the same length and order, and each item keeps its record's id, name, type and category, shows its amount as currency and its date as day, month and two-digit year |
| `Dashboard.EmptyLedger` | src/screens/Dashboard/index.tsx:83-156 | with nothing stored, every card shows 0 and "Não há transações" |
| `Dashboard.NetLabelIgnoresEntries` | src/screens/Dashboard/index.tsx:121-124 | a record that is not "negative" never changes the net label, however recent it is |
| `Dashboard.EntriesLabelIgnoresOtherTypes` | src/screens/Dashboard/index.tsx:88-137 | a record typed neither "positive" nor "negative" raises the entries total while the entries label still says "Não há transações" |
| `Resume.SelectExpenses` | src/screens/Resume/index.tsx:73-78 | a record enters the month's expenses exactly when its type is "negative" and its date has the selected month and year |
| `Resume.SelectExpensesAppend` | src/screens/Resume/index.tsx:73-78 | filtering a list with one more record gives the old result plus that record when it is a selected expense |
| `Resume.CategorySumAppend` | src/screens/Resume/index.tsx:92-96 | one more expense adds its amount to its own category's sum only |
| `Resume.CategorySumBounds` | src/screens/Resume/index.tsx:89-98 | a category sum lies between 0 and the month's total, and is positive exactly when some expense of the month is filed under the category |
| `Resume.Percent` | src/screens/Resume/index.tsx:104-106 | the percentage is 100 · part / whole rounded to the nearest whole number, halves up; for 0 < part ≤ whole it lies in 0..100 |
| `Resume.RoundedShareBounds` | src/screens/Resume/index.tsx:104-106 | a rounded share of at most the whole is between 0 and 100 |
| `Resume.LoadData` | src/screens/Resume/index.tsx:67-120 | the nested loops yield exactly `ResumeOf` of the month's expenses over the catalog; a division happens only for a positive category sum, so never by zero |
| `Resume.ResumeFollowsCatalog` | src/screens/Resume/index.tsx:89-117 | slices follow catalog order at strictly increasing catalog positions, at most one per catalog entry (so no more slices than entries); each copies key, name and colour from its entry; an entry gets a slice exactly when its category sum is positive |
| `Resume.ResumeTotals` | src/screens/Resume/index.tsx:98-115 | every slice's total is positive, equals its category's sum and is at most the month's total; its percentage is that total's rounded share, in 0..100 |
| `Resume.NoExpensesNoResume` | src/screens/Resume/index.tsx:73-98 | a month without expenses yields an empty resume for any catalog |
| `Resume.SlicesAddUpToTotal` | src/screens/Resume/index.tsx:80-117 | for a catalog with distinct keys the slice totals add up to at most the month's total, and to exactly that total when every expense's category is in the catalog |
| `Resume.SplitExample` | src/screens/Resume/index.tsx:89-117 | food 30 + 10 and transport 20 in one month give slices 40 at 67% and 20 at 33%, rounded independently |
| `Resume.ShiftMonth` | src/screens/Resume/index.tsx:56-65 | "next" moves the date exactly one month forward and "prev" one month back; the day is kept, or clamped to the last day of a shorter month; the result is a valid date |
| `Resume.ShiftRoundTrip` | src/screens/Resume/index.tsx:56-65 | "next" then "prev", or "prev" then "next", returns to the same month of the same year with a day no later than the original |
| `Resume.ClampingRoundTrip` | src/screens/Resume/index.tsx:56-65 | 31 January 2024 moves to 29 February 2024, and that moves back to 29 January 2024 |
| `Resume.ShiftLeavesMonth` | src/screens/Resume/index.tsx:56-78 | after a move, no expense of the previously selected month is selected |
| `Register.Validate` | src/screens/Register/index.tsx:40-46 | a form passes exactly when the name is non-empty and the amount is present, numeric and strictly positive; each failing rule is reported, and only failing rules |
| `Register.RegisteredAppends` | src/screens/Register/index.tsx:100-104 | the user's list grows by exactly one record, at the end, with the old records unchanged and in order; with nothing stored, it becomes a one-element list |
| `Register.RegisteredOthersUntouched` | src/screens/Register/index.tsx:81-104 | no other user's list and no other key of the store changes |
| `Register.RegisterThenHighlights` | src/screens/Register/index.tsx:90-104 | after a registration the dashboard's expense total grows by the amount of a "negative" record, and its entries total by the amount of any other |
| `Register.RegisterThenResume` | src/screens/Register/index.tsx:90-104 | after a registration the resume's month total grows by the record's amount exactly when it is an expense of that month |
| `Register.RegisterStep` | src/screens/Register/index.tsx:79-116 | with no type selected the result is the type alert; with the placeholder category it is the category alert; both write nothing and change nothing; otherwise the new record takes type, category key, name, amount, id and date from the selections, form and caller, the store becomes exactly `Registered` (the user's list with the record appended, every other key as it was), and the type and category are reset |
| `Register.Storage.GetItem` | src/screens/Register/index.tsx:100-101 | reading a key gives its list when present and nothing otherwise |
| `Register.Storage.SetItem` | src/screens/Register/index.tsx:104 | writing replaces the list under one key and leaves the other keys as they were |
| `Register.RegisterScreen.constructor` | src/screens/Register/index.tsx:51-57 | the screen starts with no type and the placeholder category |
| `Register.RegisterScreen.SelectTransactionType` | src/screens/Register/index.tsx:66-68 | a type button selects its type and leaves the category alone |
| `Register.RegisterScreen.SelectCategory` | src/screens/Register/index.tsx:182-186 | the category selector replaces the category and leaves the type alone |
| `Register.RegisterScreen.HandleRegister` | src/screens/Register/index.tsx:79-116 | the guarded read-append-write leaves the outcome, the screen state and the store exactly as `RegisterStep` says; every saved record is typed "positive" or "negative" |
| `Register.RegisterScreen.Submit` | src/screens/Register/index.tsx:179 | a form that fails the schema reports its errors and changes nothing; a valid form goes through `HandleRegister` |

## Left out

- Rendering: JSX, styled components, the theme, fonts, app bootstrap and the
  VictoryPie chart.
- Asynchronous I/O and JSON: the store is a map that each screen reads or
  writes in one step. A failing `setItem`, with its `catch`, `console.log` and
  "Não foi possível salvar!" alert, is not modelled.
- Alerts and navigation: the two guard alerts are outcome constructors.
  `navigation.navigate('Listagem')` is not modelled.
- Floating point: amounts are exact integer cents, not `Number(item.amount)` on
  strings. The model has no rounding drift in totals and no binary-fraction
  error in percentages.
- Locale formatting: BRL currency text, `Intl.DateTimeFormat` and pt-BR month
  names are represented by constructors holding the numbers they render.
  Resume's `totalFormatted` field is left out for the same reason.
- Time zones and time of day: a date is `(year, month, day)`. Local-time
  conversion is not modelled.
- Dashboard.GetLastTransaction: the branch that returns `undefined` when the
  latest date has no valid day (an unparseable stored date) is not modelled,
  because every modelled date is a calendar date.
- Clocks, ids and users: `new Date()`, `uuid.v4()` and the signed-in user's id
  are parameters.
- React machinery: hooks, the loading flags, and the form library's `reset()`
  of the input fields are not modelled. The Dashboard and Resume state setters
  become method results.
- The category catalog (`src/utils/categories`) is not part of this model. The
  catalog is a parameter.
- Resume.SlicesAddUpToTotal: the lemma assumes the catalog's keys are distinct.
  With a repeated key the same expenses would be emitted twice.

# Expense ledger: monthly aggregation and request validation

A verified Dafny model of the two pieces of logic in the personal-expense
ledger (a WordPress REST backend plus a React client) that compute or decide
something:

1. **Monthly aggregation and display order** (client,
   `frontend-keuangan-ku/src/components/ExpenseTracker.jsx`).
   `calculateMonthlyTotals` folds the flat expense list into a map keyed by
   `"YYYY-MM"`. Each bucket has a month name, a running total and its
   records. The list shows month keys newest first and, within a month,
   records by date, newest first. The add and edit forms send nothing while
   the amount or the description is empty.
2. **Request validation and outcomes** (backend,
   `backend-absensi-bubs/controller.php`). `add`, `delete` and `update` turn
   the coerced request fields and the database layer's return value into a
   success response or a `WP_Error` with status 400 or 500.

Modules, one per concept:

- `Options`: the optional value.
- `Decimal`: decimal rendering of numbers and reading it back.
- `LexOrder`: code-unit string order and its facts.
- `Sorting`: sorting by a comparator, modelling `Array.prototype.sort`.
- `MonthKeys`: dates, `padStart`, the month key, its parse-back and its order.
- `Aggregation`: the fold, a loop-free characterisation, conservation.
- `Display`: key order, record order, the rendered section list.
- `Controller`: the three PHP handlers.
- `Submission`: the client guard and how the server treats what it posts.

Modelling choices:

- A date is an already-parsed (year, month, day) triple with a 1-based month.
- An amount is an already-parsed integer.
- `formatMonth` becomes the parameter `monthName: Date -> string`.
- The fold is written over a key function. `CalculateMonthlyTotals` instantiates it with `MonthKey`.
- Each handler is split into a database-free plan (`PlanAdd`, …) and the response chosen from the write's result.
- The `$wpdb` layer becomes the parameter `db: DbCall -> DbResult`. `DbResult` is the `int|false` that `$wpdb` returns.
- The code computes no daily average or over-budget figure, and the aggregation does not reject malformed records.

## Model

| member | source | states |
|---|---|---|
| MonthKeys.PadStart | frontend-keuangan-ku/src/components/ExpenseTracker.jsx:84 | the padded string is as wide as the requested width or the input, whichever is larger; it ends with the input and every added character is the fill |
| MonthKeys.MonthKey | frontend-keuangan-ku/src/components/ExpenseTracker.jsx:83-84 | the key starts with the year's decimal digits, followed by a hyphen and a month field at least two characters wide (see `MonthFieldDigits` for its value) |
| MonthKeys.MonthFieldDigits | frontend-keuangan-ku/src/components/ExpenseTracker.jsx:84 | for months 1..12 the padded month field is exactly two digits whose value is the month ("01".."12") |
| MonthKeys.MonthKeyShape | frontend-keuangan-ku/src/components/ExpenseTracker.jsx:84 | with a 4-digit year the key has 7 characters: the year's digits, a hyphen at index 4, then the two-digit month |
| MonthKeys.ParseMonthKeyRoundTrip | frontend-keuangan-ku/src/components/ExpenseTracker.jsx:84 | reading a key back yields exactly the date's year and month |
| MonthKeys.MonthKeyInjective | frontend-keuangan-ku/src/components/ExpenseTracker.jsx:84 | two dates get the same key if and only if they share year and month |
| MonthKeys.KeyOrderIsChronological | frontend-keuangan-ku/src/components/ExpenseTracker.jsx:296-297 | for 4-digit years, one key sorts before another as strings if and only if its month is earlier in the calendar |
| Aggregation.AddExpense | frontend-keuangan-ku/src/components/ExpenseTracker.jsx:87-96 | one step adds the record's key to the map and changes no other bucket; an existing bucket keeps its name, its total grows by the amount and the record is appended to its records; a new bucket is named after this record's date, totals the amount and holds just this record |
| Aggregation.Aggregate | frontend-keuangan-ku/src/components/ExpenseTracker.jsx:79-97 | the pass starts from an empty map: the result is empty exactly when the input is, and no bucket is ever empty |
| Aggregation.CalculateMonthlyTotals | frontend-keuangan-ku/src/components/ExpenseTracker.jsx:79-100 | the map is empty (the "no data" state) exactly when there are no records |
| Aggregation.AggregateCharacterised | frontend-keuangan-ku/src/components/ExpenseTracker.jsx:82-97 | the fold equals a loop-free definition: keys are exactly the keys that occur, and each bucket holds that key's records in list order, their sum and the name of the first of them |
| Aggregation.MonthlyTotalsContents | frontend-keuangan-ku/src/components/ExpenseTracker.jsx:82-97 | a month has a bucket if and only if some record falls in it; the bucket lists that month's records in list order, its total is their sum, and its name comes from the first record seen |
| Aggregation.ExpenseInExactlyOneBucket | frontend-keuangan-ku/src/components/ExpenseTracker.jsx:84-96 | every record is in the bucket of its own month and in no other bucket |
| Aggregation.AggregateConserves | frontend-keuangan-ku/src/components/ExpenseTracker.jsx:95-96 | for any key function, bucket totals add up to the sum of all amounts and bucket sizes to the number of records |
| Aggregation.MonthlyTotalsConservation | frontend-keuangan-ku/src/components/ExpenseTracker.jsx:95-96 | conservation for the month keys: all month totals add up to the sum of all amounts, and all bucket sizes to the record count |
| Sorting.SortBy | frontend-keuangan-ku/src/components/ExpenseTracker.jsx:309 | sorting yields a permutation of the input in which each element may precede every later one under the comparator, and elements the comparator ranks equal keep their input order (a stable sort) |
| Display.NewerKeyFirst | frontend-keuangan-ku/src/components/ExpenseTracker.jsx:297 | the month comparator `b.localeCompare(a)` as a "may come first" relation: a key may precede another unless it is smaller; `NewerKeyFirstIsPreorder` shows it is total and transitive |
| Display.NewerDateFirst | frontend-keuangan-ku/src/components/ExpenseTracker.jsx:309 | the record comparator `new Date(b.date) - new Date(a.date)`: a record may precede another unless its date is earlier |
| Display.MonthKeysNewestFirst | frontend-keuangan-ku/src/components/ExpenseTracker.jsx:296-297 | the displayed keys are exactly the map's keys, each once, in strictly descending string order |
| Display.RecordsNewestFirst | frontend-keuangan-ku/src/components/ExpenseTracker.jsx:308-309 | a month's records are shown as a permutation of the bucket's records, no record dated before a later-listed one, records of the same day in bucket order |
| Display.Render | frontend-keuangan-ku/src/components/ExpenseTracker.jsx:296-331 | one section per bucket, newest key first, each with its bucket's name, its total and its records newest first (same-day records in bucket order); no sections (the empty-state message) exactly when the map is empty |
| Display.RenderIsChronological | frontend-keuangan-ku/src/components/ExpenseTracker.jsx:296-309 | for 4-digit years, every record of a later section lies in an earlier calendar month than every record of an earlier section |
| Submission.SubmitPayload | frontend-keuangan-ku/src/components/ExpenseTracker.jsx:115-131 | nothing is sent if and only if the amount or the description is empty; a sent body carries the date, the parsed amount and the description |
| Submission.Received | backend-absensi-bubs/controller.php:19-21 | a posted body as the handler sees it: every field set, date and description through `sanitize_text_field`, the amount as posted |
| Submission.SubmittedFormIsInserted | frontend-keuangan-ku/src/components/ExpenseTracker.jsx:115-131 | a form that passes the guard, with a truthy date and a nonzero parsed amount, reaches the insert with its values |
| Submission.ZeroAmountPassesOnlyTheClient | frontend-keuangan-ku/src/components/ExpenseTracker.jsx:115-118 | an amount that is non-empty text but parses to 0 passes the client guard and is refused by the server |
| Submission.EditedRecordIsUpdated | frontend-keuangan-ku/src/components/ExpenseTracker.jsx:161-178 | an edited record that passes the guard, with a nonzero id, truthy date and nonzero amount, reaches the update with its values |
| Controller.TruthyText | backend-absensi-bubs/controller.php:23 | PHP truthiness of a coerced text field: null, "" and "0" are false |
| Controller.TruthyInt | backend-absensi-bubs/controller.php:23 | PHP truthiness of a coerced integer: null and 0 are false |
| Controller.TruthyRows | backend-absensi-bubs/controller.php:35 | PHP truthiness of a `$wpdb` write result: `false` and 0 rows are false |
| Controller.EffectiveUserId | backend-absensi-bubs/controller.php:27-30 | the owner is user 1 when nobody is logged in (current id 0), and the logged-in user's id otherwise |
| Controller.PlanAdd | backend-absensi-bubs/controller.php:15-33 | `add` refuses with `missing_fields`/400 if and only if the date is absent or falsy (including "0") or the amount is absent or 0; a negative amount passes; otherwise it issues one insert with the coerced values, a missing description as "", owned by user 1 when nobody is logged in and by the current user otherwise |
| Controller.Add | backend-absensi-bubs/controller.php:15-43 | `add` succeeds if and only if validation passes and the insert result is truthy; a 400 happens exactly on failed validation; every error is `missing_fields`/400 or `insert_failed`/500 |
| Controller.PlanDelete | backend-absensi-bubs/controller.php:45-53 | `delete` refuses with `invalid_id`/400 if and only if the id is 0, and otherwise issues one delete of that id |
| Controller.Delete | backend-absensi-bubs/controller.php:45-62 | `delete` succeeds if and only if the id is nonzero and at least one row was deleted; errors are `invalid_id`/400 for id 0 and `delete_failed`/500 otherwise |
| Controller.PlanUpdate | backend-absensi-bubs/controller.php:65-78 | `update` refuses with `invalid_input`/400 if and only if the id, date or amount is falsy; otherwise it issues one update with the coerced values |
| Controller.Update | backend-absensi-bubs/controller.php:65-88 | `update` succeeds if and only if validation passes and the result is not `false`; a 400 happens exactly on failed validation, so a `false` result gives `update_failed`/500; every error is one of those two |
| Controller.RefusalIgnoresDatabase | backend-absensi-bubs/controller.php:23-25 | when a handler refuses a request, its response is the same whatever the database would have returned |
| Controller.ZeroRowsUpdateVersusDelete | backend-absensi-bubs/controller.php:55-87 | when a write touches no row, `update` reports success while `delete` reports `delete_failed`/500 |
| Controller.NegativeAmountAccepted | backend-absensi-bubs/controller.php:20-25 | a negative amount with a truthy date is accepted and inserted unchanged |

## Left out

- Network calls (`fetch`), `async`/`await` and React state and effects: I/O and UI plumbing. Loading and error flags are not modelled.
- `formatCurrency`, `formatDate`, `formatMonth`: locale formatting. The month name is the opaque parameter `monthName`.
- `new Date(string)` parsing and the local-time shift of `getMonth`: these depend on the time zone. Dates are already-parsed triples.
- `parseInt` returning `NaN`: amounts in the list are integers. On the form side `parseInt` is an opaque function parameter.
- `sanitize_text_field`, `intval` and `get_current_user_id`: their results are inputs or opaque parameters. The route pattern `\d+` makes ids non-negative in practice, but any integer id is accepted here.
- The in-place mutation of a bucket's record list by `sort`: the ordered list is returned as a new value.
- Idempotence of the aggregation holds by construction (the model's functions are pure), so it has no lemma of its own.
- Number width: totals are exact integers here. In the client, `parseInt` and `total +=` work on JavaScript doubles, exact only up to 2^53. In PHP, `intval` is 64-bit. Conservation of totals holds in the source only while sums stay within those ranges.
- MonthKeys.KeyOrderIsChronological: holds only for 4-digit years. A shorter year renders shorter: "999-12" sorts after "1000-01".
- `localeCompare` is modelled as code-unit order. The two agree on keys made of digits with the hyphen at the same position.
- Response bodies are reduced to the message (for success) or the code, message and status (for errors).
- `get_all` (controller.php:5-13) returns the database rows unchanged. It has no logic to model.
- Route registration, CORS headers (absensi-bubs.php) and the SQL wrappers (model.php): plumbing. The wrappers' return values are the `db` parameter.
- JSX components (`ExpenseItem`, `FormInput`, `DeleteConfirmation`, `EditModal`): presentation only.

# Budget tracker core, in Dafny

A model of the logic of a small in-browser expense tracker (a Next.js/React
application) and proofs about it:

- **ExpenseStore** (`expense_store.dfy`): the IndexedDB object store
  "expenses", keyed by `id`, as a class over a `map<string, Expense>`.
  `add` refuses a taken key with a `ConstraintError` and `put` overwrites.
  `delete` succeeds whether or not the key is there. `getAll` lists the
  records in ascending key order. `getAllExpenses` then sorts that array in
  place, newest date first. The sort is a stable insertion sort on an
  `array`, because `Array.prototype.sort` is stable, so records of the same
  date stay in key order.
- **BudgetApp** (`budget_app.dfy`): the page's in-memory `expenses` list
  and its two actions (prepend a new record, filter out an id). Also the
  derived figures: the total and this month's total.
- **CategoryChart** (`category_chart.dfy`): the `reduce` that folds the
  expenses into a dictionary from category to summed amount. A JavaScript
  object keeps its keys in insertion order, so this is a map plus the
  sequence of its keys. The chart data is read back in first-seen order,
  labelled from the chart's own table with the raw category as fallback,
  and coloured from a cycle of eight.
- **ExpenseList** (`expense_list.dfy`): the list's empty state, its
  rows, and the label and icon lookups with their fallbacks.
- **ExpenseForm**, **IncomeForm**, **SavingsForm** and **AmountForms**
  (`expense_form.dfy`, `income_form.dfy`, `savings_form.dfy`,
  `amount_forms.dfy`): the form state machines. Each has a submit guard and
  emits a value. The expense form resets after a submit. The income and
  savings forms are preloaded from an optional record and keep their fields
  after a submit.
- **Records** and **Decimal** (`records.dfy`, `decimal.dfy`): the shared
  shapes and the amount text of the forms.
  - Amounts are whole cents.
  - Dates are (year, month, day) triples, ordered as calendar dates.
  - `Decimal.Parse` stands for `Number.parseFloat` on what a number input
    yields.
  - `Decimal.Format` stands for `Number.prototype.toString` of an amount.
  - `Parse(Format(c)) == Some(c)` is proved.

The clock is a parameter throughout. The current date (`now`, `today`) and
the fresh id that `Date.now().toString()` supplies are passed in. The
outcome of the income and savings forms' mount-time record request is also
passed in, as a `Loaded` value.

The page keeps its list in component state only. app/page.tsx never calls
the store, so the page model and the store model are independent, as in
the code. They are not written through to each other, even though the
system's design describes write-through.

## Model

| member | source | states |
|---|---|---|
| Records.WithId | app/page.tsx:23-27 | the new record carries the supplied id and exactly the submitted amount, category, description and date |
| Records.TotalAppend | app/page.tsx:36 | the sum of amounts is additive over concatenation |
| Records.TotalNonNegative | app/page.tsx:36 | with no negative amount the total is non-negative |
| Records.EarlierIsStrictOrder | lib/indexeddb.ts:55 | the date order the sort comparator induces is irreflexive, asymmetric, transitive and total |
| Decimal.Format | components/income-form.tsx:20 | `toString` of an amount is non-empty and starts with a minus sign exactly when the amount is negative |
| Decimal.Parse | components/expense-form.tsx:44 | `parseFloat` yields a value only for non-empty text, and a negative value only for text that starts with a minus sign |
| Decimal.ParseDigitFirst | components/expense-form.tsx:44 | `parseFloat` reads a text that starts with a digit as an unsigned number |
| Decimal.ParseMinus | components/expense-form.tsx:44 | `parseFloat` reads a leading minus sign as the negation of the rest |
| Decimal.ParseFormat | components/income-form.tsx:28-43 | parsing the text of any amount gives back that amount |
| Decimal.FormatInjective | components/income-form.tsx:20 | two different amounts never get the same text |
| ExpenseStore.KeyLessIrreflexive | lib/indexeddb.ts:50 | no key sorts before itself in getAll's key order |
| ExpenseStore.KeyLessTransitive | lib/indexeddb.ts:50 | getAll's key order is transitive |
| ExpenseStore.KeyLessTotal | lib/indexeddb.ts:50 | any two different keys are ordered one way or the other |
| ExpenseStore.KeyLessAsymmetric | lib/indexeddb.ts:50 | no two keys each sort before the other |
| ExpenseStore.LeastKeyExists | lib/indexeddb.ts:50 | every non-empty set of stored keys has a least key, which getAll yields first |
| ExpenseStore.NextInKeyOrder | lib/indexeddb.ts:50 | appending the least remaining key keeps the listing in ascending key order and below every key left |
| ExpenseStore.PrecedesTransitive | lib/indexeddb.ts:54-56 | the result order (newer date first, then smaller key) is transitive |
| ExpenseStore.PrecedesAsymmetric | lib/indexeddb.ts:54-56 | no two records each come before the other, so a record never precedes itself |
| ExpenseStore.NewestFirstUnique | lib/indexeddb.ts:50-56 | two newest-first sequences of the same records are equal, so the order getAllExpenses returns is determined by the stored records |
| ExpenseStore.Swap | lib/indexeddb.ts:54-56 | exchanging two slots keeps every other slot and the multiset of records |
| ExpenseStore.SortNewestFirst | lib/indexeddb.ts:54-56 | the in-place stable sort of a key-ordered array leaves it newest-first with same-date records in key order, and is a permutation |
| ExpenseStore.InsertedInOrder | lib/indexeddb.ts:54-56 | the record the inner pass moved sits in order within the sorted prefix |
| ExpenseStore.ValuesByKey | lib/indexeddb.ts:24 | in a store keyed by `id`, a record is stored exactly when it sits under its own id |
| ExpenseStore.ListedNext | lib/indexeddb.ts:50 | one step of the getAll scan keeps the listing complete, in key order and below the unscanned keys |
| ExpenseStore.ListedAll | lib/indexeddb.ts:50 | a finished scan lists every stored record exactly once in ascending key order |
| ExpenseStore.ExpenseDB.constructor | lib/indexeddb.ts:21-28 | the upgrade handler creates an empty store keyed by `id` |
| ExpenseStore.ExpenseDB.AddExpense | lib/indexeddb.ts:32-42 | ConstraintError exactly when the id is already stored, and then the store is unchanged; otherwise the record is added under its id |
| ExpenseStore.ExpenseDB.UpdateExpense | lib/indexeddb.ts:74-84 | afterwards the id maps to exactly the record, whether or not it was stored; every other key and record is unchanged |
| ExpenseStore.ExpenseDB.DeleteExpense | lib/indexeddb.ts:62-72 | the key is absent afterwards and no other key or record changes; an absent key is not an error |
| ExpenseStore.ExpenseDB.GetAll | lib/indexeddb.ts:50 | every stored record once, in strictly ascending key order |
| ExpenseStore.ExpenseDB.GetAllExpenses | lib/indexeddb.ts:44-60 | a permutation of the stored records with distinct ids, newest date first, same-date records in ascending key order; the store is not modified |
| BudgetApp.WithoutId | app/page.tsx:33 | the filtered list holds exactly the records whose id differs, and is no longer |
| BudgetApp.ThisMonth | app/page.tsx:37-42 | keeps exactly the records dated in the month and year of `now` |
| BudgetApp.ThisMonthComplement | app/page.tsx:37-42 | holds exactly the records the month filter drops |
| BudgetApp.BudgetApp.constructor | app/page.tsx:20-21 | the page starts with no expenses and the form closed |
| BudgetApp.BudgetApp.OpenAddForm | app/page.tsx:98 | the "Add Expense" button opens the form |
| BudgetApp.BudgetApp.CancelAddForm | app/page.tsx:106 | cancelling closes the form |
| BudgetApp.BudgetApp.AddExpense | app/page.tsx:23-30 | the new record, with the supplied id, goes in front of the unchanged list; the length grows by one; the form closes |
| BudgetApp.BudgetApp.DeleteExpense | app/page.tsx:32-34 | the list becomes the id filter of the old list, so no record with that id remains |
| BudgetApp.WithoutIdAppend | app/page.tsx:33 | the filter distributes over concatenation, so the survivors keep their relative order |
| BudgetApp.WithoutAbsentId | app/page.tsx:33 | deleting an id no record carries leaves the list unchanged |
| BudgetApp.WithoutIdIdempotent | app/page.tsx:33 | deleting twice equals deleting once |
| BudgetApp.AddThenDelete | app/page.tsx:28-33 | adding under a fresh id and then deleting that id restores the list |
| BudgetApp.WithoutIdCount | app/page.tsx:33 | the count drops by exactly the number of records carrying the id, so duplicates all go |
| BudgetApp.TotalAfterAdd | app/page.tsx:28-36 | after an add the total is the new amount plus the old total |
| BudgetApp.ThisMonthSplit | app/page.tsx:36-43 | this month's figure plus the sum the filter drops is the total |
| BudgetApp.ThisMonthAtMostTotal | app/page.tsx:36-43 | with no negative amounts, this month's figure lies between 0 and the total |
| BudgetApp.OtherMonthIgnored | app/page.tsx:37-43 | an expense dated outside the current month does not change this month's figure |
| BudgetApp.SameMonthCounted | app/page.tsx:37-43 | an expense dated in the current month adds exactly its amount to this month's figure |
| BudgetApp.DeleteFromRow | components/expense-list.tsx:97 | a row's delete button passes that row's id, so the page drops that expense and keeps every record of another id |
| CategoryChart.FirstSeenMeaning | components/category-chart.tsx:32-40 | the dictionary's keys in insertion order are distinct and are exactly the categories that occur |
| CategoryChart.FirstSeenSnoc | components/category-chart.tsx:34 | a further expense adds its category at the end of the key order only when it is new |
| CategoryChart.CategorySumSnoc | components/category-chart.tsx:34 | a further expense adds its amount to its own category's sum and to no other |
| CategoryChart.FirstIndex | components/category-chart.tsx:34 | the position where a category first occurs |
| CategoryChart.FoldStep | components/category-chart.tsx:33-36 | one call of the reduce callback keeps the accumulator equal to the per-category sums of what has been folded, with keys in first-seen order |
| CategoryChart.FoldedMeaning | components/category-chart.tsx:32-38 | after folding the whole input, the keys are exactly the categories that occur, in first-seen order, each mapped to its sum |
| CategoryChart.CategoryTotals | components/category-chart.tsx:32-38 | the key order lists exactly the keys; the keys are exactly the categories that occur, in first-seen order, and each maps to the sum of its expenses' amounts |
| CategoryChart.ChartLabel | components/category-chart.tsx:41 | the chart's table label when the category is in the table, the raw category otherwise |
| CategoryChart.SliceColor | components/category-chart.tsx:71 | every slice gets one of the eight palette colours |
| CategoryChart.ChartData | components/category-chart.tsx:40-43 | one entry per key, in key order, named by the label lookup and valued by the dictionary |
| CategoryChart.Colored | components/category-chart.tsx:70-72 | the i-th slice is filled with palette colour i mod 8 |
| CategoryChart.Render | components/category-chart.tsx:31-85 | the empty state exactly for no expenses; otherwise one sector per distinct category in first-seen order, with its label, its sum and colour i mod 8, and the sectors add up to the total |
| CategoryChart.BreakdownMeaning | components/category-chart.tsx:61-72 | for a non-empty input, the i-th sector is the i-th category's label, sum and colour i mod 8, and the sectors add up to the total |
| CategoryChart.CategorySumAbsent | components/category-chart.tsx:34 | a category that does not occur sums to 0 |
| CategoryChart.SumOfAppend | components/category-chart.tsx:32-38 | appending an expense adds its amount once to the sum over any distinct categories that include its category |
| CategoryChart.SlicesAddUp | components/category-chart.tsx:32-43 | the values of the dictionary add up to the sum of all amounts |
| CategoryChart.SectorTotalIsSumOf | components/category-chart.tsx:69-72 | the drawn sector values add up to the sum of the category sums |
| CategoryChart.FirstSeenInOrder | components/category-chart.tsx:40 | the chart lists categories in the order of their first occurrence in the input |
| CategoryChart.FirstIndexIs | components/category-chart.tsx:34 | a position holding the category with none before it is the first occurrence |
| CategoryChart.ColorsCycle | components/category-chart.tsx:29 | slices fewer than eight apart have different colours, and colours repeat every eight |
| CategoryChart.LabelExamples | components/category-chart.tsx:18-27 | "food" is shown as "Food & Dining"; "dining", "gas", "subscriptions" and "home" are shown raw |
| ExpenseList.IconFor | components/expense-list.tsx:72 | the table icon for a known category, Utensils otherwise |
| ExpenseList.LabelFor | components/expense-list.tsx:73 | the table label for a known category, the raw category otherwise |
| ExpenseList.RowFor | components/expense-list.tsx:71-103 | a row is keyed by the id, deletes that id, shows "label, category", shows the description only when non-empty, and carries the date and amount |
| ExpenseList.Render | components/expense-list.tsx:49-110 | the empty state exactly for no expenses; otherwise one row per expense in input order |
| ExpenseList.TablesAgree | components/expense-list.tsx:21-47 | the label table and the icon table have the same keys |
| ExpenseList.FallbackOnlyForUnknown | components/expense-list.tsx:72-73 | a known category is never shown by its raw name, and only "food" among known ones gets the Utensils icon |
| ExpenseForm.ExpenseForm.constructor | components/expense-form.tsx:34-37 | amount, category and description start empty and the date starts as today |
| ExpenseForm.ExpenseForm.SetAmount | components/expense-form.tsx:68 | the amount input sets the amount text |
| ExpenseForm.ExpenseForm.SetCategory | components/expense-form.tsx:78 | choosing an option sets the category to its value |
| ExpenseForm.ExpenseForm.SetDescription | components/expense-form.tsx:113 | the textarea sets the description |
| ExpenseForm.ExpenseForm.SetDate | components/expense-form.tsx:102 | the date input sets the date |
| ExpenseForm.ExpenseForm.HandleSubmit | components/expense-form.tsx:39-54 | nothing is emitted and nothing changes exactly when the amount or the category is empty; otherwise the parsed amount and the category, description and date as entered are emitted, and the fields reset to empty with the date back at today |
| ExpenseForm.OptionsDistinct | components/expense-form.tsx:19-31 | the select offers 11 distinct category values |
| ExpenseForm.OptionsMatchList | components/expense-form.tsx:19-31 | every value the form can submit is known to the expense list, with the same label and icon the select shows |
| AmountForms.Submission | components/income-form.tsx:38-46 | nothing for an empty or negative amount; otherwise the parsed, non-negative amount with the description, or the default text when the description is empty |
| AmountForms.FormattedAmountIsValid | components/income-form.tsx:20 | the text of any amount is non-empty and reads back as that amount |
| AmountForms.LoadedRecordResubmits | components/income-form.tsx:26-43 | a loaded record submitted unedited hands back its own amount and description (or the default for an empty one), unless its amount is negative |
| IncomeForm.IncomeForm.constructor | components/income-form.tsx:19-21 | the amount starts as the text of the current income (0 when none is given) and the description empty |
| IncomeForm.IncomeForm.LoadExisting | components/income-form.tsx:23-36 | a found record overwrites both fields; an absent record or a failed request leaves them unchanged |
| IncomeForm.IncomeForm.SetAmount | components/income-form.tsx:66 | the amount input sets the amount text |
| IncomeForm.IncomeForm.SetDescription | components/income-form.tsx:80 | the textarea sets the description |
| IncomeForm.IncomeForm.HandleSubmit | components/income-form.tsx:38-46 | emits the guarded submission with "Total income" as default and never changes the fields, so a second submit emits the same |
| IncomeForm.UntouchedFormSubmitsZero | components/income-form.tsx:19-43 | a form opened without a current income submits 0 with "Total income" |
| SavingsForm.SavingsForm.constructor | components/savings-form.tsx:19-21 | the amount starts as the text of the current savings (0 when none is given) and the description empty |
| SavingsForm.SavingsForm.LoadExisting | components/savings-form.tsx:23-36 | a found record overwrites both fields; an absent record or a failed request leaves them unchanged |
| SavingsForm.SavingsForm.SetAmount | components/savings-form.tsx:66 | the amount input sets the amount text |
| SavingsForm.SavingsForm.SetDescription | components/savings-form.tsx:80 | the textarea sets the description |
| SavingsForm.SavingsForm.HandleSubmit | components/savings-form.tsx:38-46 | emits the guarded submission with "Total savings" as default and never changes the fields, so a second submit emits the same |
| SavingsForm.UntouchedFormSubmitsZero | components/savings-form.tsx:19-43 | a form opened without a current savings figure submits 0 with "Total savings" |

## Left out

- Opening and upgrading the database: `openDB`, the version number, the `date` and `category` indexes, transactions, and the promise and event wiring (lib/indexeddb.ts:14-30). These are asynchronous browser calls. The store is modelled as the map they give access to, and a request's failure other than ConstraintError is not modelled.
- Key comparison is modelled char by char on Dafny strings. IndexedDB compares UTF-16 code units, which differs only for characters outside the Basic Multilingual Plane.
- Floating point is not modelled: doubles, rounding in sums, and `toFixed(2)` in the displayed figures. Amounts are exact cents.
- Amount text is modelled only as an optional minus sign, digits and at most two fractional digits. Text `parseFloat` reads differently is out of the model: exponents, more decimals, a leading "+" or ".", and NaN from text the number input lets through. NaN would slip past the `< 0` guard of the income and savings forms.
- Decimal.Format: `toString` of amounts of 10^21 and above uses exponent notation, which is not modelled.
- The clock and the time zone are not modelled: `Date.now()` ids, `new Date()`, and the default date built from a UTC ISO string. Neither is the mismatch between parsing "YYYY-MM-DD" as UTC midnight and reading `getMonth`/`getFullYear` in local time. The month filter compares the date's own fields with `now`'s.
- Invalid date strings are not modelled. They would make the sort comparator return NaN. The date input's `required` attribute keeps an empty date out of the expense form, so a `Date` is always present.
- Rendering is not modelled: JSX, styling, recharts geometry, `toLocaleDateString`, icons as components, and the scheduling of `useState` and `useEffect`. The views are modelled as the data each component draws.
- The transaction count is `expenses.length` itself. Its behaviour is stated by BudgetApp.BudgetApp.AddExpense (one more) and BudgetApp.WithoutIdCount (fewer by the number of records removed).
- `getIncomeRecord` and `getSavingsRecord` are called by the income and savings forms, but lib/indexeddb.ts does not define them. As written, the call throws, the `catch` logs it, and the outcome is LoadFailed. The model takes the outcome as an input (Found, Absent or LoadFailed). There is no income or savings store and no singleton update operation, because the store has only the "expenses" object store.
- ExpenseForm.ExpenseForm.HandleSubmit does not reject a negative amount, because the code checks only that the amount and the category are non-empty. The design says the form guarantees a non-negative amount; the code is followed.
- The chart's label table differs from the list's and the form's. The chart labels "food" as "Food & Dining" and shows "dining", "gas", "subscriptions" and "home" raw. It has a "transport" entry that no form emits. The code is followed (CategoryChart.LabelExamples).
- A category key equal to an inherited JavaScript property name (such as "constructor") or an integer-like string is not modelled. It would change the `acc[c] || 0` lookup or the key order of `Object.entries`. The form offers only the eleven option values.
- The expense form's category is restricted to the eleven option values, the only ones the select can produce.
- lib/utils.ts is not part of this model. It is a class-name and currency-formatting helper.

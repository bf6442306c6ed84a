# Taxi shift ledger — a Dafny model

The program is a small bookkeeping app for one taxi driver, with three pages.

- The main page opens a shift and records orders, either cash ("нал") or card ("карта"), each with optional tips. Each order is settled as it is saved:
  - For a cash fare the driver keeps the fare and owes the fleet a 22 % commission.
  - For a card fare the fleet keeps the fare and owes the driver 75 % of it.
- The running balance between driver and fleet is the off-cash ("безнал") ledger. It lives in a single `accumulated_beznal` row and is adjusted by each order's delta.
- Closing a shift records kilometres, litres and the petrol price, and reports income and profit. The consumption and price are suggested from the latest closed shift.
- The admin page can:
  - recompute every order and the ledger from scratch;
  - override the ledger;
  - reset the database;
  - import orders from a spreadsheet.

  The import reads text and numeric cells, accepts decimal commas and several spellings of the payment type, and groups rows by date into shifts.
- The reports page offers the months that have closed shifts with orders. For a month it shows the totals, one row per shift sorted by date, the orders of one shift, and a per-hour count of a day's orders.

The model is organised as follows:

- The database is a value `Tables.Db`: the `shifts` and `orders` tables as sequences, and the ledger row as an `Option<real>`, where `None` means the row is missing. `Store.Store` is a class that keeps the same three fields and changes them in place, one method per user action. Each method is proved to produce the state that the matching step function in `Actions` or `Admin` describes.
- Two invariants are proved to be kept by every write path:
  - `Tables.Wf`: sequential ids, at most one open shift, orders that point at existing shifts, known types, settled derived columns.
  - `Tables.Balanced`: the ledger row exists and equals the sum of the order deltas.
- The source is Python with SQLite. Its own primitives are modelled in `Text`: `strip()`, `lower()`, `float()` on decimal text, `replace(",", ".")`, and SQLite's byte-order comparison of text.

Two rules apply throughout:

- Amounts are exact reals, not IEEE doubles.
- Clocks (`datetime.now`) are parameters.

## Model

| member | source | states |
|---|---|---|
| Settlement.PaymentOfType | pages/Admin.py:90-99 | the stored type reads as cash exactly when it is "нал"; anything else is settled as card |
| Settlement.TypeName | app.py:417-428 | the type string written is "нал" or "карта", and reading it back gives the same payment |
| Settlement.Settle | app.py:417-428 | total less tips is the payout; cash: commission is 22 % of the fare and the ledger delta is minus the commission; card: commission plus delta is the fare and the delta is 75 % of it |
| Settlement.TipsNeverCommissioned | app.py:417-428 | tips change neither commission nor ledger delta, and move the total one for one |
| Settlement.SettleSigns | app.py:417-428 | for a positive fare the commission lies strictly between 0 and the fare, cash debits and card credits the ledger, and the payout never exceeds the fare |
| Settlement.SettleAdditive | app.py:417-428 | settling two parts of a fare separately adds up to settling the whole, column by column |
| Settlement.CashExample | app.py:417-423 | a cash fare of 650 without tips gives commission 143, total 650, delta -143 |
| Settlement.CardExample | app.py:424-428 | a card fare of 1000 with 50 tips gives commission 250, total 800, delta 750 |
| Settlement.SettleBlock | pages/Admin.py:221-230 | the inline settlement block computes type, commission, total and delta equal to Settle of the read payment |
| Text.Strip | app.py:408 | the result is a slice of the input with only whitespace before and after it, has no whitespace at either end, and is empty exactly when the input is all whitespace |
| Text.PyFloat | app.py:397 | float() ignores surrounding whitespace, and blank text is not a number |
| Text.StripIdempotent | pages/Admin.py:49-54 | stripping twice is stripping once |
| Text.CommaToDot | app.py:397 | same length, every comma replaced by a full stop and every other character kept |
| Text.Lower | pages/Admin.py:210 | same length, each character lowered (Latin and Cyrillic capitals, Ё), others kept |
| Text.LowerIdempotent | pages/Admin.py:210 | lowering twice is lowering once |
| Text.ParseDecimal | app.py:397 | a parsed value needs non-empty text, and an unsigned text parses to a non-negative value |
| Text.SignedDecimal | app.py:397 | a leading '-' negates the unsigned number after it, a leading '+' keeps it, and either sign before a non-number is an error |
| Text.NegativeDecimalParts | app.py:408-413 | "-whole.frac", such as a negative tip, reads as minus the decimal whole.frac |
| Text.ParseNatRoundTrip | app.py:397 | float() reads back the decimal spelling of every natural number |
| Text.DecimalText | app.py:397 | "whole,frac" and "whole.frac" both read as whole + frac/10^len(frac) after the comma is replaced |
| Text.WholeText | app.py:396-413 | the decimal spelling of a natural number has nothing to strip, no comma, and is not blank |
| Text.StrLessTransitive | pages/Reports.py:223-300 | SQLite's text order is transitive |
| Text.StrLessTotal | pages/Reports.py:223-300 | any two distinct texts are ordered one way or the other |
| Text.StrLessAsymmetric | pages/Reports.py:223-300 | the text order is asymmetric |
| Cells.SafeStrCell | pages/Admin.py:49-54 | a missing or blank cell gives the default; otherwise the stripped text, which is non-empty |
| Cells.SafeNumCell | pages/Admin.py:57-67 | a missing or blank cell gives the default; a cell whose stripped text, with ',' read as '.', parses gives that number; any other result is the default; with a default there is always a number |
| Cells.DecimalComma | pages/Admin.py:57-67 | a cell "whole,frac" or "whole.frac" reads as that decimal number |
| Cells.DecimalCell | pages/Admin.py:57-67 | the same for either separator given as a parameter |
| Cells.WholeNumberCell | pages/Admin.py:57-67 | a cell holding a whole number reads as that number |
| Cells.PaymentAlias | pages/Admin.py:209-214 | a type cell is card exactly when its stripped lower case is "безнал", "card" or "карта" |
| Cells.MissingTypeIsCash | pages/Admin.py:209-214 | a missing or blank type cell is cash |
| Cells.AliasIgnoresCase | pages/Admin.py:209-214 | the alias does not depend on letter case |
| Cells.LowerStrip | pages/Admin.py:210 | lower-casing commutes with strip() |
| Cells.CardSpellings | pages/Admin.py:209-214 | "card", "CARD" and "Безнал" are card |
| Cells.NalCellIsCash | pages/Admin.py:209-214 | "нал" is cash |
| Tables.LedgerRead | app.py:267-273 | the stored balance, or 0 when the row is missing |
| Tables.Adjust | app.py:276-289 | the UPDATE adds the delta when the row exists and changes nothing when it does not |
| Tables.Sum | app.py:241-264 | an empty sum is 0 |
| Tables.SumAppend | app.py:241-264 | a sum over a concatenation is the sum of the sums |
| Tables.OpenShiftIndex | app.py:151-158 | the first shift with is_open = 1, or None exactly when no shift is open |
| Tables.FirstWithDate | pages/Admin.py:196-206 | the first shift with exactly that date, or None exactly when there is none |
| Tables.OrdersOf | app.py:224-238 | the orders of one shift, each belonging to it |
| Tables.OrdersOfMembers | app.py:224-238 | an order is listed exactly when it is in the table and belongs to the shift |
| Tables.ShiftTotals | app.py:241-264 | a shift without orders has all-zero totals |
| Tables.TotalsOfAppend | app.py:241-264 | each of the four totals is additive over concatenated order lists |
| Tables.SaveOrder | app.py:431-437 | the order is appended, shifts are untouched, and the ledger row is adjusted by the order's delta |
| Tables.SaveOrderKeepsInvariants | app.py:192-221 | saving a well-formed settled order keeps Wf and keeps a balanced ledger balanced |
| Tables.OpenShiftUnique | app.py:151-158 | with at most one open shift, the open shift found is that one |
| Tables.BeznalIdentity | app.py:241-264 | over settled orders the off-cash delta is card takings less 22 % of cash takings |
| Tables.IncomeIsTotal | app.py:495 | cash plus card plus tips equals the sum of the order totals |
| Tables.ShiftBeznalIdentity | app.py:449-496 | the off-cash identity holds for every shift of a well-formed database |
| Fuel.CloseFuel | app.py:539-545 | with positive km, consumption and price: litres = km/100 × consumption and cost = litres × price; otherwise both 0 |
| Fuel.Litres | app.py:540 | litres × 100 = km × consumption, and litres are positive |
| Fuel.Summary | app.py:539-550 | income is cash + card + tips and profit is income less the petrol cost |
| Fuel.CloseExample | app.py:539-550 | 200 km at 8 l/100 km and 55 per litre costs 880 and leaves a profit of 570 on an income of 1450 |
| Fuel.Qualifies | app.py:292-323 | the WHERE clause: a closed shift with positive km, litres and price (Latest and LatestIsGreatest state what is picked among these) |
| Fuel.Latest | app.py:292-323 | the shift picked qualifies, and there is none exactly when no closed shift has positive km, litres and price |
| Fuel.LatestIsGreatest | app.py:292-323 | no qualifying shift sorts after the one picked by (closed_at, id) descending |
| Fuel.KeyLessTransitive | app.py:292-323 | the (closed_at, id) order is transitive |
| Fuel.KeyLessTotal | app.py:292-323 | shifts with distinct ids are ordered one way or the other |
| Fuel.LastFuelParams | app.py:292-323 | defaults 8.0 and 55.0 without a qualifying shift; otherwise the litres-per-100-km and price of the latest one; both are positive |
| Fuel.ConsumptionRoundTrip | app.py:292-323 | litres stored at close, divided by km and times 100, give back the consumption entered |
| Actions.OpenStep | app.py:161-173 | with a shift open nothing happens; otherwise one open shift with the next id is appended and orders and ledger are unchanged |
| Actions.OpenKeepsInvariants | app.py:334-354 | opening keeps Wf and the balance, and the new shift is then the open one |
| Actions.ReadOrderForm | app.py:394-413 | the amount must parse and be positive, blank tips are 0, and tips that do not parse are an error; each error is returned exactly when its condition holds |
| Actions.NewOrder | app.py:415-437 | the new order has the next id, the open shift, the parsed amount and tips, and is settled |
| Actions.AddOrderStep | app.py:394-437 | no open shift is an error; a form error changes nothing; otherwise the settled order is saved |
| Actions.AddOrderEffect | app.py:415-437 | a saved order lands in the open shift with its settlement, and the ledger moves by its delta |
| Actions.AddOrderKeepsInvariants | app.py:394-437 | saving an order keeps Wf and keeps a balanced ledger balanced |
| Actions.FormReadsDecimals | app.py:394-413 | amounts and tips written with a comma or a full stop are read as their decimal values; blank tips are 0 |
| Actions.ReadNumber | app.py:397 | blank text is not a number, and text without a comma reads as float() of itself |
| Actions.ReadDecimal | app.py:397 | the form reads "whole,frac" as the decimal number |
| Actions.CashOrderDebits | app.py:417-437 | a cash order of x > 0 without tips debits 22 % of x from the ledger |
| Actions.WholeCashOrder | app.py:394-437 | the form with a whole-number cash amount saves and debits 22 % of it |
| Actions.CloseStep | app.py:176-189 | None exactly when no shift is open; otherwise the open shift gets is_open = 0, km, litres, price and closed_at, and keeps its id, date and opened_at; the other shifts, the orders and the ledger are unchanged; the summary follows Summary |
| Actions.CloseKeepsInvariants | app.py:527-550 | closing keeps Wf and the balance and leaves no shift open |
| Actions.CloseThenSuggest | app.py:292-323 | after closing at the latest time with positive inputs, the next suggestion is the consumption and price entered |
| Admin.Resettle | pages/Admin.py:86-108 | the recomputed order keeps id, shift, type, amount and tips, is settled, and a settled order is left as it is |
| Admin.RecalcOrders | pages/Admin.py:86-108 | one recomputed order per order |
| Admin.RecalcDb | pages/Admin.py:79-136 | shifts unchanged, as many orders, and the ledger row present afterwards |
| Admin.RecalcSettles | pages/Admin.py:79-136 | every order recomputed in place, all orders settled, the ledger row set to their sum, and Wf kept |
| Admin.RecalcOfSettled | pages/Admin.py:86-108 | orders that are already settled are left as they are |
| Admin.RecalcIdempotent | pages/Admin.py:544-557 | recalculating twice is recalculating once |
| Admin.RecalcOfBalanced | pages/Admin.py:79-136 | on a well-formed balanced database the recalculation changes nothing |
| Admin.OverrideDb | pages/Admin.py:504-531 | tables unchanged; the row, when it exists, holds the value, and a missing row stays missing |
| Admin.OverrideThenRecalc | pages/Admin.py:504-557 | an override followed by a recalculation puts back the balanced database |
| Admin.ResetDb | pages/Admin.py:280-325 | after the reset as written the tables are empty and the ledger row is missing |
| Admin.ResetReseeded | pages/Admin.py:280-325 | the corrected reset is well formed and balanced |
| Admin.InitDb | app.py:86-148 | tables unchanged; an existing row is kept; a missing row is seeded at 0 |
| Admin.AmountPresent | pages/Admin.py:154-166 | a row survives the blank-to-NA replacement and dropna exactly when its Сумма cell is present and not blank (KeptRowsMembers states the filter) |
| Admin.KeptRows | pages/Admin.py:154-166 | only rows with an amount cell are kept, in order |
| Admin.KeptRowsMembers | pages/Admin.py:154-166 | a row is kept exactly when it is in the sheet and has an amount |
| Admin.CheckRow | pages/Admin.py:176-218 | a bad amount is rejected first, then a blank date; an accepted row carries the parsed amount, the stripped date, the alias payment and the tips, which default to 0 |
| Admin.FindOrCreateShift | pages/Admin.py:196-206 | an existing shift of that date is reused and nothing changes; otherwise the whole new row is given: the next id, the date, km 0, litres and price 0, closed, opened and closed at the date; the id returned is that of the first shift with the date |
| Admin.ImportRow | pages/Admin.py:173-264 | each row counts once; a rejected row only counts an error; an accepted row is imported |
| Admin.ImportAccepted | pages/Admin.py:221-259 | an accepted row counts as imported and appends exactly one order: the next id, the shift of its date, the row's amount, tips and payment type, no time, settled; the shifts are those after the find-or-create and the ledger moves by the order's delta |
| Admin.ImportedOrder | pages/Admin.py:232-247 | the imported order has the next id, the shift found, the type of the payment, no time, and is settled |
| Admin.ImportRows | pages/Admin.py:173-264 | the loop over the kept rows never lowers either counter; ImportCounters, ImportGrows, ImportSavesRows, ImportRaisesLedger and ImportKeepsInvariants state its effect |
| Admin.ImportSheet | pages/Admin.py:139-277 | without an Сумма column, or with no kept row, nothing is imported and nothing changes |
| Admin.ImportCounters | pages/Admin.py:173-264 | imported plus errors grows by exactly the number of rows |
| Admin.SheetCounters | pages/Admin.py:139-277 | imported plus errors of a sheet is the number of kept rows |
| Admin.ImportGrows | pages/Admin.py:173-264 | the import only appends shifts and orders, one order per imported row |
| Admin.AcceptedRows | pages/Admin.py:173-218 | the verdicts of the rows the loop accepts, in sheet order; all of them are acceptances |
| Admin.ImportSavesRows | pages/Admin.py:173-259 | the k-th order the loop appends is the k-th accepted row: numbered after the existing orders, with that row's amount, tips and type, no time, settled, in the first shift of the row's date; the imported count is the number of accepted rows |
| Admin.SavedFromStep | pages/Admin.py:221-259 | accepting one more row saves it after the rows saved so far and keeps those |
| Admin.SavedBeznal | pages/Admin.py:221-257 | the deltas of orders saved from rows sum to the deltas those rows settle to |
| Admin.SavedFromBeznal | pages/Admin.py:221-257 | the orders saved from rows at the end of a table have the deltas those rows settle to |
| Admin.SheetSavesRows | pages/Admin.py:139-277 | after a sheet import the imported count is the number of accepted rows, the old orders are kept, and the new orders are exactly those rows saved in order |
| Admin.SheetRaisesLedger | pages/Admin.py:139-277 | after a sheet import the ledger moves by the sum of Settle(amount, tips, payment).beznal over the rows the import accepts |
| Admin.ImportRaisesLedger | pages/Admin.py:249-257 | the ledger afterwards is the ledger before, adjusted by the deltas of the new orders |
| Admin.ImportKeepsInvariants | pages/Admin.py:173-264 | the import keeps Wf, keeps a balanced ledger balanced, and leaves the open shift as it was |
| Admin.ImportGroupsByDate | pages/Admin.py:196-206 | when every order sits in the first shift of its date, it still does after the import |
| Admin.RejectedRowWritesNothing | pages/Admin.py:176-193 | a row without an amount, or with a blank date, writes nothing and counts one error |
| Admin.CashRowAccepted | pages/Admin.py:176-218 | a dated row with a whole-number amount and no type is an accepted cash row |
| Admin.ResetLosesImportedDeltas | pages/Admin.py:280-325 | after the reset as written, one imported cash row leaves a delta of -22 % of the fare, while the page reads 0 and init_db seeds 0, so the ledger ends unbalanced |
| Admin.ReseededImportBalanced | pages/Admin.py:280-325 | after the corrected reset, any import leaves a well-formed balanced database |
| Store.Store.constructor | app.py:86-148 | a new database has empty tables and the ledger row at 0, and is well formed and balanced |
| Store.Store.EnsureLedgerRow | app.py:138-145 | the state after is InitDb of the state before |
| Store.Store.AddToLedger | app.py:276-289 | tables unchanged and the ledger adjusted by the amount |
| Store.Store.InsertOrder | app.py:431-437 | the state after is SaveOrder of the state before |
| Store.Store.OpenShift | app.py:161-173 | the state and id after are OpenStep's, and Wf and the balance are kept |
| Store.Store.AddOrder | app.py:394-437 | an error changes nothing; a success reaches AddOrderStep's state and keeps Wf and the balance |
| Store.Store.CloseShift | app.py:527-550 | without an open shift nothing changes; otherwise the state and summary are CloseStep's; Wf and the balance are kept |
| Store.Store.SetLedger | pages/Admin.py:504-531 | the state after is OverrideDb of the state before |
| Store.Store.Recalc | pages/Admin.py:79-136 | the loop leaves RecalcDb of the state before, which is balanced, with Wf kept |
| Store.Store.Import | pages/Admin.py:139-277 | the state and counters are ImportSheet's, with Wf and the balance kept |
| Store.Store.ImportLoop | pages/Admin.py:173-264 | the loop over the kept rows reaches ImportRows' state and counters |
| Store.Store.ImportOne | pages/Admin.py:173-264 | a rejected row changes nothing; an accepted row's effect is ImportAccepted |
| Store.Store.FindOrCreate | pages/Admin.py:196-206 | the state and id after are FindOrCreateShift's |
| Store.Store.Reset | pages/Admin.py:280-325 | the state after is ResetDb, the reset as written |
| Store.Store.ResetSeeded | pages/Admin.py:280-325 | the state after is the corrected reset, well formed and balanced |
| Reports.Filter | pages/Reports.py:98-126 | every shift kept satisfies the condition and comes from the input |
| Reports.YearMonthFilter | pages/Reports.py:119-125 | every value kept is a well-formed "YYYY-MM" text that the query returned |
| Reports.AvailableYearMonths | pages/Reports.py:98-126 | every month offered is well formed |
| Reports.AvailableYearMonthsMembers | pages/Reports.py:98-126 | a month is offered exactly when it is well formed and is the month of some closed shift with orders and a non-blank date |
| Reports.IsDbEmpty | pages/Reports.py:79-95 | both tables hold no row (EmptyDbReportsNothing states what the page then shows) |
| Reports.EmptyDbReportsNothing | pages/Reports.py:79-95 | an empty database offers no month and reports zero shifts and zero total |
| Reports.MonthName | pages/Reports.py:413-426 | the name is empty exactly when the number is not a month 1..12 |
| Reports.FormatMonthOption | pages/Reports.py:429-438 | the label is never empty; "—" for a missing or empty value; "s (name)" for text of at least 7 characters with digits at positions 5 and 6; any other text unchanged |
| Reports.LabelOfMonth | pages/Reports.py:429-438 | a month written as strftime writes it is labelled with its Russian name |
| Reports.OfferedMonthLabel | pages/Reports.py:429-438 | every offered month is labelled "value (name)" |
| Reports.MonthShiftsMembers | pages/Reports.py:144-220 | a shift is in the month exactly when its date starts with the month, it is closed, and it has an order |
| Reports.SumShifts | pages/Reports.py:144-220 | an empty sum is 0 |
| Reports.MonthReportOf | pages/Reports.py:144-220 | total is cash + card + tips, the ledger is the current balance, and a blank month or one without shifts reports zeros; otherwise shifts is the number of shifts in the month |
| Reports.MonthTotals | pages/Reports.py:144-220 | the loop over the month's shifts computes MonthReportOf |
| Reports.SumBeznalIdentity | pages/Reports.py:144-220 | over any shifts the off-cash sum is card takings less 22 % of cash takings |
| Reports.MonthBeznalIdentity | pages/Reports.py:144-220 | the month's off-cash change is its card takings less 22 % of its cash takings |
| Reports.SortByDate | pages/Reports.py:223-300 | sorting keeps the number of shifts |
| Reports.InsertMultiset | pages/Reports.py:223-300 | inserting one shift adds exactly that shift |
| Reports.SortSorted | pages/Reports.py:223-300 | the result is in date order and is a permutation of the input |
| Reports.SortSum | pages/Reports.py:223-300 | sorting does not change a sum over the shifts |
| Reports.RowOf | pages/Reports.py:261-293 | the row carries the shift's date, km, litres and price, and its totals |
| Reports.RowsOf | pages/Reports.py:261-293 | one row per shift |
| Reports.MonthRows | pages/Reports.py:223-300 | no rows for a blank month, otherwise one row per shift of the month |
| Reports.MonthShiftRows | pages/Reports.py:223-300 | the loop appends the rows of the month's shifts, sorted by date |
| Reports.MonthRowsSorted | pages/Reports.py:223-300 | the month table is one row per shift of the month, in date order |
| Reports.RowsIncomeSum | pages/Reports.py:223-300 | the income column sums to the sum of the shifts' incomes |
| Reports.RowsFuelSum | pages/Reports.py:223-300 | the petrol column sums to the sum of litres × price over the shifts |
| Reports.FuelCost | pages/Reports.py:569-572 | the month's petrol, litres × price summed over the table rows (RowsFuelSum and MonthRowsMatchTotals state its value) |
| Reports.MonthProfit | pages/Reports.py:569-573 | the month's total income less its petrol (MonthRowsMatchTotals states it from the shifts) |
| Reports.MonthRowsMatchTotals | pages/Reports.py:569-573 | the month table's income equals the month total, its petrol is the month's litres × price, and profit is their difference |
| Reports.SmallestClosedOn | pages/Reports.py:303-314 | the closed shift of that date with the smallest id, or None exactly when there is none |
| Reports.ClosedShiftIdByDate | pages/Reports.py:303-314 | None for an empty date; otherwise the smallest id of a closed shift of that date, or None when there is none |
| Reports.ClosedShiftIsFirst | pages/Reports.py:303-314 | with ids in table order, the shift found is the first closed one of the date |
| Reports.TypeLabel | pages/Reports.py:338-344 | "нал" is shown as "Нал", "карта" as "Карта", anything else as it is |
| Reports.OrderRowOf | pages/Reports.py:338-356 | the row carries the order's time (empty when NULL), the label, amount, tips, delta and total |
| Reports.OrderRowsOf | pages/Reports.py:338-356 | one row per order |
| Reports.ShiftOrderTable | pages/Reports.py:317-360 | no rows without a shift, otherwise one row per order of the shift |
| Reports.ShiftOrderRows | pages/Reports.py:317-360 | the loop appends one row per order of the shift, and none without a shift |
| Reports.OrderTableMatchesShiftRow | pages/Reports.py:317-360 | the total column of a shift's order table adds up to that shift's income in the month table |
| Reports.OrderLabels | pages/Reports.py:338-344 | in a well-formed database every label is Нал or Карта, and Нал exactly for cash orders |
| Reports.OrdersOfIncreasing | pages/Reports.py:323-333 | a shift's orders come in increasing id order |
| Reports.HourTimes | pages/Reports.py:363-383 | at most one time per order (HoursCountOrders states which orders contribute) |
| Reports.HoursOf | pages/Reports.py:388-398 | at most one hour per time |
| Reports.HourOfOrderTime | pages/Reports.py:388-398 | an order stamped "HH:MM" falls in hour HH |
| Reports.ParseHour | pages/Reports.py:388-398 | an hour is read only when the stripped text starts with its two digits, and it is read whenever the text starts with the two digits of some hour 0..23 |
| Reports.HourTable | pages/Reports.py:402-408 | 24 buckets |
| Reports.HourTableCounts | pages/Reports.py:402-408 | bucket h holds the number of occurrences of h |
| Reports.OrdersByHour | pages/Reports.py:363-409 | 24 buckets, all zero without a date, otherwise the counts of the readable hours of the day's orders |
| Reports.CountHours | pages/Reports.py:402-408 | the counting loop computes HourTable |
| Reports.CollectHours | pages/Reports.py:388-398 | the loop keeps exactly the readable hours, in order |
| Reports.HourTableSum | pages/Reports.py:402-408 | the buckets add up to the number of readable hours |
| Reports.HoursCountOrders | pages/Reports.py:371-398 | hour h occurs among the day's readable hours once per order of a closed shift of the date whose time reads as hour h |
| Reports.HourChartCounts | pages/Reports.py:363-409 | bar h of the chart is the number of the day's orders in closed shifts whose time falls in hour h |
| Reports.HourChartBounded | pages/Reports.py:363-409 | the chart never counts more orders than the table holds |

## Left out

- Streamlit widgets, page layout and CSS: these are presentation. Form inputs become parameters. The number inputs' `min_value` bounds appear as preconditions: km is a `nat`, and an override is at least 0.
- Admin authentication (`check_admin_auth`): it only grants access and does not touch the data.
- SQLite access, connections, transactions and crashes between statements: each action is modelled as a single atomic step on the value `Db`.
- The clock: `datetime.now` in Moscow time is passed as a text parameter.
- Floating point: amounts are exact reals, so `1 - 0.78` is exactly 0.22 here. In IEEE doubles it is not, and sums may round differently.
- Text.ParseDecimal: models `float()` only on signed decimal text. Exponents, `inf`, `nan` and underscores are not accepted, where Python accepts them.
- Text.Lower: lowers ASCII and the basic Cyrillic capitals (А–Я, Ё) only, not all of Unicode.
- Text.Strip: strips the six ASCII whitespace characters, not Unicode whitespace.
- Admin.AmountPresent: the blank-amount filter models the `^\s*$` pattern with the same six ASCII whitespace characters, while the pattern's `\s` also matches Unicode whitespace.
- Text.IsDigit: accepts ASCII digits only.
- Reading a workbook or CSV file with pandas, and the Google Sheets URL rewrite in `import_from_gsheet`: the model starts from the sheet as rows of optional text cells. A NaN cell is a missing cell, and a cell's number is read from its text.
- The deletion of the database file in `reset_db`: the reset is its resulting state.
- Reports.AvailableYearMonths: `strftime('%Y-%m', date)` is a function parameter. The `DISTINCT` and `ORDER BY ... DESC` of the query are not modelled, so the contract states membership only, not order or uniqueness.
- Reports.MonthShifts: `date LIKE 'YYYY-MM%'` is modelled as a prefix test. LIKE's case folding of ASCII letters does not affect digit patterns.
- Reports.HourTable: the `value_counts` presentation and the bar chart itself are left out. Only the 24-bucket count the page builds is modelled.
- NULL in `amount`, `tips`, `total` or `beznal`: every write path writes them, so they are not modelled as optional. NULL `time` (imported orders) and NULL `closed_at` are modelled.
- Stored types outside the two known ones: like the source, the recalculation does not rewrite an order's stored type, even when it is neither "нал" nor "карта". Such an order is settled as card, and its type text is kept.
- The reports page's own `init_db` (pages/Reports.py:14-76) has the same effect on the data as the main page's `init_db` and is modelled by Admin.InitDb.

## Findings

| source | as written | input that shows it | evidently intended | confidence | as-written member | corrected member |
|---|---|---|---|---|---|---|
| pages/Admin.py:280-325 | `reset_db` deletes the file and recreates the three tables but inserts no `accumulated_beznal` row. The admin page never calls `init_db`, so the ledger UPDATEs of a following import or override hit no row and their deltas are lost. The next `init_db` seeds the row at 0 while the orders sum to a non-zero delta. | reset, then import one dated cash row of 650 without a type: the order's delta is -143, the page reads a balance of 0, and after `init_db` the row holds 0 instead of -143 | the reset seeds the ledger row at 0, as `init_db` does, so every later import keeps the ledger equal to the sum of the deltas | not executed | Admin.ResetLosesImportedDeltas | Admin.ReseededImportBalanced |

/**
 * The Reports page: the months it offers, the month totals, one row per
 * closed shift of the month sorted by date, the orders of one shift, the
 * orders per hour of a day, and the month's petrol cost and profit.
 */
module Reports {
  import opened Util
  import opened Text
  import opened Settlement
  import opened Tables

  // ----- is_db_empty -----

  /** Both tables hold no row. */
  predicate IsDbEmpty(db: Db) {
    |db.shifts| == 0 && |db.orders| == 0
  }

  // ----- filtering shifts -----

  /** The shifts satisfying p, in table order. */
  function Filter(ss: seq<Shift>, p: Shift -> bool): (r: seq<Shift>)
    ensures |r| <= |ss|
    ensures forall k | 0 <= k < |r| :: p(r[k]) && r[k] in ss
  {
    if ss == [] then []
    else
      var init := Filter(ss[..|ss| - 1], p);
      var s := ss[|ss| - 1];
      if p(s) then init + [s] else init
  }

  lemma {:induction false} FilterMembers(ss: seq<Shift>, p: Shift -> bool, s: Shift)
    ensures s in Filter(ss, p) <==> s in ss && p(s)
  {
    if ss != [] {
      FilterMembers(ss[..|ss| - 1], p, s);
      assert ss == ss[..|ss| - 1] + [ss[|ss| - 1]];
    }
  }

  /** is_open = 0 AND EXISTS (an order of the shift). */
  predicate Reportable(s: Shift, os: seq<Order>) {
    !s.isOpen && OrdersOf(os, s.id) != []
  }

  /** SQLite's TRIM(date) = '': trim() without a second argument removes
      spaces only. */
  predicate OnlySpaces(s: string) {
    forall k | 0 <= k < |s| :: s[k] == ' '
  }

  // ----- get_available_year_months -----

  /** The shifts whose month the page may offer. */
  function IsCandidate(db: Db): Shift -> bool {
    (s: Shift) => !OnlySpaces(s.date) && Reportable(s, db.orders)
  }

  function MonthCandidates(db: Db): seq<Shift> {
    Filter(db.shifts, IsCandidate(db))
  }

  lemma MonthCandidatesMembers(db: Db, s: Shift)
    ensures s in MonthCandidates(db) <==> s in db.shifts && !OnlySpaces(s.date) && Reportable(s, db.orders)
  {
    FilterMembers(db.shifts, IsCandidate(db), s);
  }

  /** The Python-side check of a month value: at least 7 characters, digits
      at [0:4] and at [5:7]. */
  predicate IsYearMonthText(s: string) {
    |s| >= 7 && AllDigits(s[0..4]) && AllDigits(s[5..7])
  }

  /** The loop over the query's values: NULL and malformed values are
      skipped, the others kept in order. */
  function YearMonthFilter(vals: seq<Option<string>>): (r: seq<string>)
    ensures |r| <= |vals|
    ensures forall k | 0 <= k < |r| :: IsYearMonthText(r[k]) && Some(r[k]) in vals
  {
    if vals == [] then []
    else
      var init := YearMonthFilter(vals[..|vals| - 1]);
      var v := vals[|vals| - 1];
      if v.Some? && IsYearMonthText(v.value) then init + [v.value] else init
  }

  /** A value is offered exactly when the query returned it and it passes
      the check. */
  lemma {:induction false} YearMonthFilterMembers(vals: seq<Option<string>>, s: string)
    ensures s in YearMonthFilter(vals) <==> Some(s) in vals && IsYearMonthText(s)
  {
    if vals != [] {
      YearMonthFilterMembers(vals[..|vals| - 1], s);
      assert vals == vals[..|vals| - 1] + [vals[|vals| - 1]];
    }
  }

  /** get_available_year_months, with strftime('%Y-%m', ·) given as month. */
  function AvailableYearMonths(db: Db, month: string -> Option<string>): (r: seq<string>)
    ensures forall k | 0 <= k < |r| :: IsYearMonthText(r[k])
  {
    var c := MonthCandidates(db);
    YearMonthFilter(seq(|c|, k requires 0 <= k < |c| => month(c[k].date)))
  }

  /** A month is offered exactly when it is well formed and some closed
      shift with orders and a non-blank date falls in it. */
  lemma AvailableYearMonthsMembers(db: Db, month: string -> Option<string>, s: string)
    ensures s in AvailableYearMonths(db, month) <==>
              IsYearMonthText(s) && exists c | c in MonthCandidates(db) :: month(c.date) == Some(s)
  {
    var c := MonthCandidates(db);
    var vals := seq(|c|, k requires 0 <= k < |c| => month(c[k].date));
    YearMonthFilterMembers(vals, s);
    if Some(s) in vals {
      var k :| 0 <= k < |vals| && vals[k] == Some(s);
      assert c[k] in c;
    }
    if exists x | x in c :: month(x.date) == Some(s) {
      var x :| x in c && month(x.date) == Some(s);
      var k :| 0 <= k < |c| && c[k] == x;
      assert vals[k] == Some(s);
    }
  }

  /** An empty database offers no month and reports zero shifts. */
  lemma EmptyDbReportsNothing(db: Db, month: string -> Option<string>, ym: Option<string>)
    requires IsDbEmpty(db)
    ensures AvailableYearMonths(db, month) == []
    ensures MonthReportOf(db, ym).shifts == 0 && MonthReportOf(db, ym).total == 0.0
  {
    assert db.shifts == [];
  }

  // ----- format_month_option -----

  const MonthNames: seq<string> := [
    "январь", "февраль", "март", "апрель", "май", "июнь",
    "июль", "август", "сентябрь", "октябрь", "ноябрь", "декабрь"]

  /** month_name.get(m, ''). */
  function MonthName(m: nat): (name: string)
    ensures name == "" <==> !(1 <= m <= 12)
  {
    if 1 <= m <= 12 then MonthNames[m - 1] else ""
  }

  /** The label of a month in the select box. */
  function FormatMonthOption(s: Option<string>): (r: string)
    ensures r != ""
    ensures s.None? || s.value == "" ==> r == "—"
    ensures s.Some? && |s.value| >= 7 && AllDigits(s.value[5..7]) ==>
      r == s.value + " (" + MonthName(TwoDigitValue(s.value[5..7])) + ")"
    ensures s.Some? && s.value != "" && !(|s.value| >= 7 && AllDigits(s.value[5..7])) ==> r == s.value
  {
    if s.None? || s.value == "" then "—"
    else if |s.value| >= 7 && AllDigits(s.value[5..7]) then
      s.value + " (" + MonthName(TwoDigitValue(s.value[5..7])) + ")"
    else s.value
  }

  /** The two-digit text of a number below 100, as strftime writes it. */
  function TwoDigits(m: nat): (s: string)
    requires m < 100
    ensures |s| == 2 && AllDigits(s)
  {
    [DigitChar(m / 10), DigitChar(m % 10)]
  }

  lemma TwoDigitsValue(m: nat)
    requires m < 100
    ensures TwoDigitValue(TwoDigits(m)) == m
  {
  }

  /** A month value as strftime('%Y-%m') writes it is labelled with the
      Russian name of its month. */
  lemma LabelOfMonth(year: string, m: nat)
    requires |year| == 4 && AllDigits(year) && 1 <= m <= 12
    ensures var s := year + "-" + TwoDigits(m);
      IsYearMonthText(s) && FormatMonthOption(Some(s)) == s + " (" + MonthNames[m - 1] + ")"
  {
    var s := year + "-" + TwoDigits(m);
    assert s[5..7] == TwoDigits(m);
    assert s[0..4] == year;
    TwoDigitsValue(m);
  }

  /** Every offered month gets the "value (name)" label, and only a month
      number outside 1..12 leaves the name empty. */
  lemma OfferedMonthLabel(s: string)
    requires IsYearMonthText(s)
    ensures FormatMonthOption(Some(s)) == s + " (" + MonthName(TwoDigitValue(s[5..7])) + ")"
  {
  }

  // ----- get_month_totals -----

  /** date LIKE 'ym%', is_open = 0 and the shift has an order. */
  predicate InMonth(s: Shift, ym: string, os: seq<Order>) {
    ym <= s.date && Reportable(s, os)
  }

  function InMonthOf(db: Db, ym: string): Shift -> bool {
    (s: Shift) => InMonth(s, ym, db.orders)
  }

  function MonthShifts(db: Db, ym: string): seq<Shift> {
    Filter(db.shifts, InMonthOf(db, ym))
  }

  lemma MonthShiftsMembers(db: Db, ym: string, s: Shift)
    ensures s in MonthShifts(db, ym) <==> s in db.shifts && InMonth(s, ym, db.orders)
  {
    FilterMembers(db.shifts, InMonthOf(db, ym), s);
  }

  /** The sum of f over the shifts. */
  function SumShifts(ss: seq<Shift>, f: Shift -> real): (r: real)
    ensures ss == [] ==> r == 0.0
  {
    if ss == [] then 0.0 else f(ss[0]) + SumShifts(ss[1..], f)
  }

  lemma {:induction false} SumShiftsSnoc(ss: seq<Shift>, x: Shift, f: Shift -> real)
    ensures SumShifts(ss + [x], f) == SumShifts(ss, f) + f(x)
  {
    if ss != [] {
      assert (ss + [x])[1..] == ss[1..] + [x];
      SumShiftsSnoc(ss[1..], x, f);
    }
  }

  lemma SumShiftsPrefix(ss: seq<Shift>, i: nat, f: Shift -> real)
    requires i < |ss|
    ensures SumShifts(ss[..i + 1], f) == SumShifts(ss[..i], f) + f(ss[i])
  {
    assert ss[..i + 1] == ss[..i] + [ss[i]];
    SumShiftsSnoc(ss[..i], ss[i], f);
  }

  function NalOf(os: seq<Order>): Shift -> real { (s: Shift) => ShiftTotals(os, s.id).nal }
  function CardOf(os: seq<Order>): Shift -> real { (s: Shift) => ShiftTotals(os, s.id).card }
  function TipsOf(os: seq<Order>): Shift -> real { (s: Shift) => ShiftTotals(os, s.id).tips }
  function BeznalOf(os: seq<Order>): Shift -> real { (s: Shift) => ShiftTotals(os, s.id).beznal }

  /** The dictionary get_month_totals returns. */
  datatype MonthReport = MonthReport(
    nal: real, card: real, tips: real, beznal: real, total: real, shifts: nat, ledger: real)

  /** The month report: for a blank month all zeros; otherwise the per-type
      net sums, tips and off-cash change over the closed shifts of the month
      that have orders, and their number; in both cases the current ledger. */
  function MonthReportOf(db: Db, ym: Option<string>): (r: MonthReport)
    ensures r.total == r.nal + r.card + r.tips
    ensures r.ledger == LedgerRead(db.ledger)
    ensures ym.None? || ym.value == "" ==>
              r == MonthReport(0.0, 0.0, 0.0, 0.0, 0.0, 0, LedgerRead(db.ledger))
    ensures ym.Some? && ym.value != "" ==> r.shifts == |MonthShifts(db, ym.value)|
    ensures ym.Some? && ym.value != "" && MonthShifts(db, ym.value) == [] ==>
              r == MonthReport(0.0, 0.0, 0.0, 0.0, 0.0, 0, LedgerRead(db.ledger))
  {
    if ym.None? || ym.value == "" then
      MonthReport(0.0, 0.0, 0.0, 0.0, 0.0, 0, LedgerRead(db.ledger))
    else
      var ms := MonthShifts(db, ym.value);
      var nal := SumShifts(ms, NalOf(db.orders));
      var card := SumShifts(ms, CardOf(db.orders));
      var tips := SumShifts(ms, TipsOf(db.orders));
      MonthReport(nal, card, tips, SumShifts(ms, BeznalOf(db.orders)), nal + card + tips, |ms|, LedgerRead(db.ledger))
  }

  /** get_month_totals: the loop over the month's shifts adding up each
      shift's totals. */
  method MonthTotals(db: Db, ym: Option<string>) returns (r: MonthReport)
    ensures r == MonthReportOf(db, ym)
  {
    if ym.None? || ym.value == "" {
      return MonthReport(0.0, 0.0, 0.0, 0.0, 0.0, 0, LedgerRead(db.ledger));
    }
    var ms := MonthShifts(db, ym.value);
    var nal, card, tips, beznal := 0.0, 0.0, 0.0, 0.0;
    var i := 0;
    while i < |ms|
      invariant 0 <= i <= |ms|
      invariant nal == SumShifts(ms[..i], NalOf(db.orders))
      invariant card == SumShifts(ms[..i], CardOf(db.orders))
      invariant tips == SumShifts(ms[..i], TipsOf(db.orders))
      invariant beznal == SumShifts(ms[..i], BeznalOf(db.orders))
    {
      var t := ShiftTotals(db.orders, ms[i].id);
      nal := nal + t.nal;
      card := card + t.card;
      tips := tips + t.tips;
      beznal := beznal + t.beznal;
      SumShiftsPrefix(ms, i, NalOf(db.orders));
      SumShiftsPrefix(ms, i, CardOf(db.orders));
      SumShiftsPrefix(ms, i, TipsOf(db.orders));
      SumShiftsPrefix(ms, i, BeznalOf(db.orders));
      i := i + 1;
    }
    assert ms[..i] == ms;
    r := MonthReport(nal, card, tips, beznal, nal + card + tips, |ms|, LedgerRead(db.ledger));
  }

  lemma {:induction false} SumBeznalIdentity(db: Db, ss: seq<Shift>)
    requires Wf(db)
    ensures SumShifts(ss, BeznalOf(db.orders))
            == SumShifts(ss, CardOf(db.orders)) - (1.0 - 0.78) * SumShifts(ss, NalOf(db.orders))
  {
    if ss != [] {
      ShiftBeznalIdentity(db, ss[0].id);
      SumBeznalIdentity(db, ss[1..]);
    }
  }

  /** Over a month, the off-cash change is the card takings less the cash
      commission, as for each shift. */
  lemma MonthBeznalIdentity(db: Db, ym: Option<string>)
    requires Wf(db)
    ensures var r := MonthReportOf(db, ym);
      r.beznal == r.card - (1.0 - 0.78) * r.nal
  {
    if ym.Some? && ym.value != "" {
      SumBeznalIdentity(db, MonthShifts(db, ym.value));
    }
  }

  // ----- get_month_shifts_details -----

  /** a's date is not after b's in SQLite's text order. */
  predicate DateLe(a: Shift, b: Shift) {
    !StrLess(b.date, a.date)
  }

  lemma DateLeTransitive(a: Shift, b: Shift, c: Shift)
    requires DateLe(a, b) && DateLe(b, c)
    ensures DateLe(a, c)
  {
    if StrLess(c.date, a.date) {
      StrLessTotal(a.date, b.date);
      StrLessTotal(b.date, c.date);
      if StrLess(a.date, b.date) {
        if StrLess(b.date, c.date) {
          StrLessTransitive(a.date, b.date, c.date);
        }
        StrLessAsymmetric(c.date, a.date);
      } else {
        StrLessAsymmetric(c.date, a.date);
      }
    }
  }

  /** ORDER BY date. */
  predicate DateSorted(ss: seq<Shift>) {
    forall i, j | 0 <= i < j < |ss| :: DateLe(ss[i], ss[j])
  }

  /** x placed before the first shift whose date is not before its own. */
  function InsertByDate(x: Shift, ss: seq<Shift>): (r: seq<Shift>)
    ensures |r| == |ss| + 1
  {
    if ss == [] || !StrLess(ss[0].date, x.date) then [x] + ss
    else [ss[0]] + InsertByDate(x, ss[1..])
  }

  /** The shifts sorted by date, equal dates left in table order. */
  function SortByDate(ss: seq<Shift>): (r: seq<Shift>)
    ensures |r| == |ss|
  {
    if ss == [] then [] else InsertByDate(ss[0], SortByDate(ss[1..]))
  }

  lemma {:induction false} InsertMultiset(x: Shift, ss: seq<Shift>)
    ensures multiset(InsertByDate(x, ss)) == multiset(ss) + multiset{x}
  {
    if ss != [] && StrLess(ss[0].date, x.date) {
      InsertMultiset(x, ss[1..]);
      assert ss == [ss[0]] + ss[1..];
    }
  }

  lemma {:induction false} InsertSorted(x: Shift, ss: seq<Shift>)
    requires DateSorted(ss)
    ensures DateSorted(InsertByDate(x, ss))
  {
    var r := InsertByDate(x, ss);
    if ss == [] || !StrLess(ss[0].date, x.date) {
      forall i, j | 0 <= i < j < |r| ensures DateLe(r[i], r[j]) {
        if i == 0 && j > 1 {
          assert DateLe(x, ss[0]);
          DateLeTransitive(x, ss[0], ss[j - 1]);
        }
      }
    } else {
      var t := ss[1..];
      InsertSorted(x, t);
      InsertMultiset(x, t);
      forall i, j | 0 <= i < j < |r| ensures DateLe(r[i], r[j]) {
        if i == 0 {
          var y := r[j];
          assert y in multiset(InsertByDate(x, t));
          if y == x {
            StrLessAsymmetric(ss[0].date, x.date);
          } else {
            assert y in multiset(t);
            var k :| 0 <= k < |t| && t[k] == y;
            assert ss[k + 1] == y;
          }
        }
      }
    }
  }

  lemma {:induction false} SortSorted(ss: seq<Shift>)
    ensures DateSorted(SortByDate(ss)) && multiset(SortByDate(ss)) == multiset(ss)
  {
    if ss != [] {
      SortSorted(ss[1..]);
      InsertSorted(ss[0], SortByDate(ss[1..]));
      InsertMultiset(ss[0], SortByDate(ss[1..]));
      assert ss == [ss[0]] + ss[1..];
    }
  }

  lemma {:induction false} InsertSum(x: Shift, ss: seq<Shift>, f: Shift -> real)
    ensures SumShifts(InsertByDate(x, ss), f) == f(x) + SumShifts(ss, f)
  {
    if ss != [] && StrLess(ss[0].date, x.date) {
      InsertSum(x, ss[1..], f);
    } else {
      assert ([x] + ss)[1..] == ss;
    }
  }

  /** Sorting does not change a sum over the shifts. */
  lemma {:induction false} SortSum(ss: seq<Shift>, f: Shift -> real)
    ensures SumShifts(SortByDate(ss), f) == SumShifts(ss, f)
  {
    if ss != [] {
      SortSum(ss[1..], f);
      InsertSum(ss[0], SortByDate(ss[1..]), f);
    }
  }

  /** One row of the month table. */
  datatype ShiftRow = ShiftRow(
    date: string, nal: real, card: real, tips: real, beznal: real,
    km: int, liters: real, price: real, total: real)

  /** The row of a shift: its totals, its stored km, litres and price, and
      the income nal + card + tips. */
  function RowOf(os: seq<Order>, s: Shift): (row: ShiftRow)
    ensures row.date == s.date && row.km == s.km && row.liters == s.liters && row.price == s.price
    ensures var t := ShiftTotals(os, s.id);
      row.nal == t.nal && row.card == t.card && row.tips == t.tips && row.beznal == t.beznal
      && row.total == t.nal + t.card + t.tips
  {
    var t := ShiftTotals(os, s.id);
    ShiftRow(s.date, t.nal, t.card, t.tips, t.beznal, s.km, s.liters, s.price, t.nal + t.card + t.tips)
  }

  function RowsOf(os: seq<Order>, ss: seq<Shift>): (rows: seq<ShiftRow>)
    ensures |rows| == |ss|
  {
    if ss == [] then [] else [RowOf(os, ss[0])] + RowsOf(os, ss[1..])
  }

  lemma {:induction false} RowsOfSnoc(os: seq<Order>, ss: seq<Shift>, x: Shift)
    ensures RowsOf(os, ss + [x]) == RowsOf(os, ss) + [RowOf(os, x)]
  {
    if ss != [] {
      assert (ss + [x])[1..] == ss[1..] + [x];
      RowsOfSnoc(os, ss[1..], x);
    }
  }

  lemma RowsOfPrefix(os: seq<Order>, ss: seq<Shift>, i: nat)
    requires i < |ss|
    ensures RowsOf(os, ss[..i + 1]) == RowsOf(os, ss[..i]) + [RowOf(os, ss[i])]
  {
    assert ss[..i + 1] == ss[..i] + [ss[i]];
    RowsOfSnoc(os, ss[..i], ss[i]);
  }

  /** The rows the month table shows: none for a blank month. */
  function MonthRows(db: Db, ym: Option<string>): (rows: seq<ShiftRow>)
    ensures ym.None? || ym.value == "" ==> rows == []
    ensures ym.Some? && ym.value != "" ==> |rows| == |MonthShifts(db, ym.value)|
  {
    if ym.None? || ym.value == "" then [] else RowsOf(db.orders, SortByDate(MonthShifts(db, ym.value)))
  }

  /** get_month_shifts_details: the loop appending one row per shift of the
      month, taken in date order. */
  method MonthShiftRows(db: Db, ym: Option<string>) returns (rows: seq<ShiftRow>)
    ensures rows == MonthRows(db, ym)
  {
    if ym.None? || ym.value == "" {
      return [];
    }
    var ss := SortByDate(MonthShifts(db, ym.value));
    rows := [];
    var i := 0;
    while i < |ss|
      invariant 0 <= i <= |ss|
      invariant rows == RowsOf(db.orders, ss[..i])
    {
      var t := ShiftTotals(db.orders, ss[i].id);
      var row := ShiftRow(ss[i].date, t.nal, t.card, t.tips, t.beznal, ss[i].km, ss[i].liters, ss[i].price, t.nal + t.card + t.tips);
      assert row == RowOf(db.orders, ss[i]);
      RowsOfPrefix(db.orders, ss, i);
      rows := rows + [row];
      i := i + 1;
    }
    assert ss[..i] == ss;
  }

  /** The rows of a month are in date order, one per shift of the month. */
  lemma MonthRowsSorted(db: Db, ym: string)
    requires ym != ""
    ensures var ss := SortByDate(MonthShifts(db, ym));
      multiset(ss) == multiset(MonthShifts(db, ym))
      && MonthRows(db, Some(ym)) == RowsOf(db.orders, ss)
      && forall i, j | 0 <= i < j < |ss| :: !StrLess(MonthRows(db, Some(ym))[j].date, MonthRows(db, Some(ym))[i].date)
  {
    var ss := SortByDate(MonthShifts(db, ym));
    SortSorted(MonthShifts(db, ym));
    RowsAt(db.orders, ss);
  }

  lemma {:induction false} RowsAt(os: seq<Order>, ss: seq<Shift>)
    ensures forall k | 0 <= k < |ss| :: RowsOf(os, ss)[k] == RowOf(os, ss[k])
  {
    if ss != [] {
      RowsAt(os, ss[1..]);
    }
  }

  function RowsIncome(rows: seq<ShiftRow>): real {
    if rows == [] then 0.0 else rows[0].total + RowsIncome(rows[1..])
  }

  /** The month's petrol: litres times price over the rows. */
  function FuelCost(rows: seq<ShiftRow>): real {
    if rows == [] then 0.0 else RowFuel(rows[0]) + FuelCost(rows[1..])
  }

  function RowFuel(row: ShiftRow): real { row.liters * row.price }

  /** The month's profit: total income less petrol. */
  function MonthProfit(db: Db, ym: Option<string>): real {
    MonthReportOf(db, ym).total - FuelCost(MonthRows(db, ym))
  }

  function FuelOf(s: Shift): real { s.liters * s.price }

  function IncomeOf(os: seq<Order>): Shift -> real {
    (s: Shift) => ShiftTotals(os, s.id).nal + ShiftTotals(os, s.id).card + ShiftTotals(os, s.id).tips
  }

  lemma {:induction false} RowsIncomeSum(os: seq<Order>, ss: seq<Shift>)
    ensures RowsIncome(RowsOf(os, ss)) == SumShifts(ss, IncomeOf(os))
  {
    if ss != [] {
      var rows := RowsOf(os, ss);
      assert rows[1..] == RowsOf(os, ss[1..]);
      assert rows[0].total == IncomeOf(os)(ss[0]);
      RowsIncomeSum(os, ss[1..]);
    }
  }

  lemma {:induction false} RowsFuelSum(os: seq<Order>, ss: seq<Shift>)
    ensures FuelCost(RowsOf(os, ss)) == SumShifts(ss, FuelOf)
  {
    if ss != [] {
      var rows := RowsOf(os, ss);
      assert rows[1..] == RowsOf(os, ss[1..]);
      RowFuelOf(os, ss[0]);
      RowsFuelSum(os, ss[1..]);
    }
  }

  lemma RowFuelOf(os: seq<Order>, s: Shift)
    ensures RowFuel(RowOf(os, s)) == FuelOf(s)
  {
    var row := RowOf(os, s);
    assert row.liters == s.liters && row.price == s.price;
  }

  lemma {:induction false} IncomeSplits(os: seq<Order>, ss: seq<Shift>)
    ensures SumShifts(ss, IncomeOf(os)) == SumShifts(ss, NalOf(os)) + SumShifts(ss, CardOf(os)) + SumShifts(ss, TipsOf(os))
  {
    if ss != [] {
      IncomeSplits(os, ss[1..]);
    }
  }

  /** The month table adds up to the month totals: its income column sums
      to всего, its petrol is litres times price over the month's shifts,
      and the profit is the sum of each shift's income less its petrol. */
  lemma MonthRowsMatchTotals(db: Db, ym: string)
    requires ym != ""
    ensures RowsIncome(MonthRows(db, Some(ym))) == MonthReportOf(db, Some(ym)).total
    ensures FuelCost(MonthRows(db, Some(ym))) == SumShifts(MonthShifts(db, ym), FuelOf)
    ensures MonthProfit(db, Some(ym))
            == SumShifts(MonthShifts(db, ym), IncomeOf(db.orders)) - SumShifts(MonthShifts(db, ym), FuelOf)
  {
    var ms := MonthShifts(db, ym);
    var ss := SortByDate(ms);
    RowsIncomeSum(db.orders, ss);
    RowsFuelSum(db.orders, ss);
    SortSum(ms, IncomeOf(db.orders));
    SortSum(ms, FuelOf);
    IncomeSplits(db.orders, ms);
  }

  // ----- get_closed_shift_id_by_date -----

  predicate ClosedOn(s: Shift, date: string) {
    s.date == date && !s.isOpen
  }

  /** The index of the closed shift of that date with the smallest id
      (ORDER BY id LIMIT 1), the first of equal ids. */
  function SmallestClosedOn(shifts: seq<Shift>, date: string): (r: Option<nat>)
    ensures r.Some? ==> (r.value < |shifts| && ClosedOn(shifts[r.value], date)
                         && forall k | 0 <= k < |shifts| && ClosedOn(shifts[k], date) :: shifts[r.value].id <= shifts[k].id)
    ensures r.None? <==> forall k | 0 <= k < |shifts| :: !ClosedOn(shifts[k], date)
  {
    if shifts == [] then None
    else
      var init := shifts[..|shifts| - 1];
      var r := SmallestClosedOn(init, date);
      var s := shifts[|shifts| - 1];
      assert forall k | 0 <= k < |init| :: shifts[k] == init[k];
      if ClosedOn(s, date) && (r.None? || s.id < shifts[r.value].id) then Some(|shifts| - 1) else r
  }

  /** get_closed_shift_id_by_date: None for an empty date. */
  function ClosedShiftIdByDate(shifts: seq<Shift>, date: string): (r: Option<nat>)
    ensures date == "" ==> r.None?
    ensures r.Some? ==> exists k | 0 <= k < |shifts| :: ClosedOn(shifts[k], date) && shifts[k].id == r.value
    ensures date != "" && r.None? ==> forall k | 0 <= k < |shifts| :: !ClosedOn(shifts[k], date)
    ensures r.Some? ==> forall k | 0 <= k < |shifts| && ClosedOn(shifts[k], date) :: r.value <= shifts[k].id
  {
    if date == "" then None
    else match SmallestClosedOn(shifts, date)
      case None => None
      case Some(k) => Some(shifts[k].id)
  }

  /** With ids in table order, the shift found is the first closed one of
      the date, which is the one the import attaches that date's rows to
      when no open shift has the date. */
  lemma ClosedShiftIsFirst(shifts: seq<Shift>, date: string, k: nat)
    requires ShiftIds(shifts) && date != ""
    requires k < |shifts| && ClosedOn(shifts[k], date)
    requires forall j | 0 <= j < k :: !ClosedOn(shifts[j], date)
    ensures ClosedShiftIdByDate(shifts, date) == Some(k + 1)
  {
    var r := SmallestClosedOn(shifts, date).value;
    assert shifts[r].id <= shifts[k].id;
  }

  // ----- get_shift_orders_df -----

  /** One row of a shift's order table. */
  datatype OrderRow = OrderRow(time: string, kind: string, amount: real, tips: real, beznal: real, total: real)

  /** The Тип column: "Нал" and "Карта" for the two known types, the raw type
      otherwise. */
  function TypeLabel(typ: string): (l: string)
    ensures typ == Nal ==> l == "Нал"
    ensures typ == Karta ==> l == "Карта"
    ensures typ != Nal && typ != Karta ==> l == typ
  {
    if typ == Nal then "Нал" else if typ == Karta then "Карта" else typ
  }

  function OrderRowOf(o: Order): (row: OrderRow)
    ensures row.time == (if o.time.Some? then o.time.value else "")
    ensures row.kind == TypeLabel(o.typ)
    ensures row.amount == o.amount && row.tips == o.tips && row.beznal == o.beznal && row.total == o.total
  {
    OrderRow(if o.time.Some? then o.time.value else "", TypeLabel(o.typ), o.amount, o.tips, o.beznal, o.total)
  }

  function OrderRowsOf(os: seq<Order>): (rows: seq<OrderRow>)
    ensures |rows| == |os|
  {
    if os == [] then [] else OrderRowsOf(os[..|os| - 1]) + [OrderRowOf(os[|os| - 1])]
  }

  /** The order table of a shift: no rows without a shift. */
  function ShiftOrderTable(os: seq<Order>, sid: Option<nat>): (rows: seq<OrderRow>)
    ensures sid.None? ==> rows == []
    ensures sid.Some? ==> |rows| == |OrdersOf(os, sid.value)|
  {
    if sid.None? then [] else OrderRowsOf(OrdersOf(os, sid.value))
  }

  /** get_shift_orders_df: the loop appending one row per order of the
      shift, in id order. */
  method ShiftOrderRows(os: seq<Order>, sid: Option<nat>) returns (rows: seq<OrderRow>)
    ensures rows == ShiftOrderTable(os, sid)
  {
    if sid.None? {
      return [];
    }
    var src := OrdersOf(os, sid.value);
    rows := [];
    var i := 0;
    while i < |src|
      invariant 0 <= i <= |src|
      invariant rows == OrderRowsOf(src[..i])
    {
      var o := src[i];
      var kind: string;
      if o.typ == Nal {
        kind := "Нал";
      } else if o.typ == Karta {
        kind := "Карта";
      } else {
        kind := o.typ;
      }
      rows := rows + [OrderRow(if o.time.Some? then o.time.value else "", kind, o.amount, o.tips, o.beznal, o.total)];
      assert src[..i + 1][..i] == src[..i];
      i := i + 1;
    }
    assert src[..i] == src;
  }

  function RowsTotal(rows: seq<OrderRow>): real {
    if rows == [] then 0.0 else RowsTotal(rows[..|rows| - 1]) + rows[|rows| - 1].total
  }

  lemma {:induction false} RowsTotalOf(os: seq<Order>)
    ensures RowsTotal(OrderRowsOf(os)) == Sum(os, Total)
  {
    if os != [] {
      RowsTotalOf(os[..|os| - 1]);
      assert OrderRowsOf(os)[..|os| - 1] == OrderRowsOf(os[..|os| - 1]);
    }
  }

  /** The Вам column of a shift's order table adds up to the shift's income
      in the month table. */
  lemma OrderTableMatchesShiftRow(db: Db, s: Shift)
    requires Wf(db)
    ensures RowsTotal(ShiftOrderTable(db.orders, Some(s.id))) == RowOf(db.orders, s).total
  {
    RowsTotalOf(OrdersOf(db.orders, s.id));
    ShiftBeznalIdentity(db, s.id);
  }

  /** In a well-formed database every label is Нал or Карта, and it is Нал
      exactly for a cash order. */
  lemma {:induction false} OrderLabels(os: seq<Order>)
    requires KnownTypes(os)
    ensures forall k | 0 <= k < |os| ::
              (OrderRowsOf(os)[k].kind == "Нал" <==> os[k].typ == Nal)
              && (OrderRowsOf(os)[k].kind == "Нал" || OrderRowsOf(os)[k].kind == "Карта")
  {
    if os != [] {
      var init := os[..|os| - 1];
      assert KnownTypes(init) by {
        forall k | 0 <= k < |init| ensures init[k].typ == Nal || init[k].typ == Karta {
          assert init[k] == os[k];
        }
      }
      OrderLabels(init);
      forall k | 0 <= k < |os|
        ensures (OrderRowsOf(os)[k].kind == "Нал" <==> os[k].typ == Nal)
                && (OrderRowsOf(os)[k].kind == "Нал" || OrderRowsOf(os)[k].kind == "Карта")
      {
        if k < |init| {
          assert OrderRowsOf(os)[k] == OrderRowsOf(init)[k];
          assert os[k] == init[k];
        }
      }
    }
  }

  /** With ids in table order the rows of a shift come in increasing id
      order, which is the ORDER BY id of the query. */
  predicate IdsIncreasing(os: seq<Order>) {
    forall i, j | 0 <= i < j < |os| :: os[i].id < os[j].id
  }

  lemma {:induction false} OrdersOfIncreasing(os: seq<Order>, sid: nat)
    requires OrderIds(os)
    ensures IdsIncreasing(OrdersOf(os, sid))
  {
    if os != [] {
      var init := os[..|os| - 1];
      assert OrderIds(init) by {
        forall k | 0 <= k < |init| ensures init[k].id == k + 1 {
          assert init[k] == os[k];
        }
      }
      OrdersOfIncreasing(init, sid);
      var ri := OrdersOf(init, sid);
      var r := OrdersOf(os, sid);
      var last := os[|os| - 1];
      if last.shiftId == sid {
        assert r == ri + [last];
        assert last.id == |os|;
        forall i, j | 0 <= i < j < |r| ensures r[i].id < r[j].id {
          assert r[i] == ri[i];
          if j == |ri| {
            assert ri[i] in init;
            var k :| 0 <= k < |init| && init[k] == ri[i];
            assert init[k] == os[k];
          } else {
            assert r[j] == ri[j];
            assert ri[i].id < ri[j].id;
          }
        }
      } else {
        assert r == ri;
        forall i, j | 0 <= i < j < |r| ensures r[i].id < r[j].id {
          assert ri[i].id < ri[j].id;
        }
      }
    }
  }

  // ----- get_orders_by_hour -----

  /** An order belongs to a closed shift of that date (the JOIN). */
  predicate InClosedShiftOn(shifts: seq<Shift>, o: Order, date: string) {
    exists k | 0 <= k < |shifts| :: shifts[k].id == o.shiftId && ClosedOn(shifts[k], date)
  }

  /** The non-NULL order times of the closed shifts of the date. */
  function HourTimes(db: Db, os: seq<Order>, date: string): (r: seq<string>)
    ensures |r| <= |os|
  {
    if os == [] then []
    else
      var init := HourTimes(db, os[..|os| - 1], date);
      var o := os[|os| - 1];
      if InClosedShiftOn(db.shifts, o, date) && o.time.Some? then init + [o.time.value] else init
  }

  /** An hour of the day. */
  type Hour = h: nat | h < 24

  /** The hour of a time text: the first two characters after strip(), when
      both are digits and form 0..23. */
  function ParseHour(t: string): (r: Option<Hour>)
    ensures r.Some? ==> |Strip(t)| >= 2 && Strip(t)[..2] == TwoDigits(r.value)
    ensures r.None? ==> !(|Strip(t)| >= 2 && exists h: Hour :: Strip(t)[..2] == TwoDigits(h))
  {
    var s := Strip(t);
    if |s| >= 2 && AllDigits(s[..2]) then
      var v := TwoDigitValue(s[..2]);
      TwoDigitsOfValue(s[..2]);
      TwoDigitsValues();
      if v <= 23 then Some(v) else None
    else None
  }

  /** Two digits are the spelling of their value. */
  lemma TwoDigitsOfValue(s: string)
    requires |s| == 2 && AllDigits(s)
    ensures TwoDigits(TwoDigitValue(s)) == s
  {
  }

  /** Every number below 100 is read back from its two digits. */
  lemma TwoDigitsValues()
    ensures forall m: nat {:trigger TwoDigits(m)} | m < 100 :: TwoDigitValue(TwoDigits(m)) == m
  {
    forall m: nat | m < 100 ensures TwoDigitValue(TwoDigits(m)) == m { TwoDigitsValue(m); }
  }

  /** Orders placed at "HH:MM", the way the order form stamps them, fall in
      hour HH. */
  lemma HourOfOrderTime(h: Hour, m: nat)
    requires m < 60
    ensures ParseHour(TwoDigits(h) + ":" + TwoDigits(m)) == Some(h)
  {
    var s := TwoDigits(h) + ":" + TwoDigits(m);
    assert IsStripped(s);
    StripOfStripped(s);
    assert s[..2] == TwoDigits(h);
    TwoDigitsValue(h);
  }

  /** The readable hours of the times, in order: the hours list the source
      builds before counting. */
  function HoursOf(times: seq<string>): (r: seq<Hour>)
    ensures |r| <= |times|
  {
    if times == [] then []
    else
      var init := HoursOf(times[..|times| - 1]);
      var h := ParseHour(times[|times| - 1]);
      if h.Some? then init + [h.value] else init
  }

  /** 24 empty buckets. */
  const NoHours: seq<nat> := [0, 0, 0, 0, 0, 0, 0, 0, 0, 0, 0, 0, 0, 0, 0, 0, 0, 0, 0, 0, 0, 0, 0, 0]

  /** The buckets after counting the hours one by one. */
  function HourTable(hours: seq<Hour>): (r: seq<nat>)
    ensures |r| == 24
  {
    if hours == [] then NoHours
    else
      var prev := HourTable(hours[..|hours| - 1]);
      var h := hours[|hours| - 1];
      prev[h := prev[h] + 1]
  }

  /** Bucket h holds the number of occurrences of h. */
  lemma {:induction false} HourTableCounts(hours: seq<Hour>, h: Hour)
    ensures HourTable(hours)[h] == multiset(hours)[h]
  {
    if hours != [] {
      var init := hours[..|hours| - 1];
      assert hours == init + [hours[|hours| - 1]];
      HourTableCounts(init, h);
    }
  }

  /** get_orders_by_hour: 24 buckets, all zero without a date, otherwise
      the readable hours of the day's order times counted per hour. */
  method OrdersByHour(db: Db, date: Option<string>) returns (counts: seq<nat>)
    ensures |counts| == 24
    ensures date.None? || date.value == "" ==> counts == NoHours
    ensures date.Some? && date.value != "" ==> counts == HourTable(HoursOf(HourTimes(db, db.orders, date.value)))
  {
    if date.None? || date.value == "" {
      return NoHours;
    }
    var times := HourTimes(db, db.orders, date.value);
    var hours := CollectHours(times);
    counts := CountHours(hours);
  }

  /** The per-hour counting of the readable hours. */
  method CountHours(hours: seq<Hour>) returns (counts: seq<nat>)
    ensures counts == HourTable(hours)
  {
    counts := NoHours;
    assert hours[..0] == [];
    var j := 0;
    while j < |hours|
      invariant 0 <= j <= |hours|
      invariant counts == HourTable(hours[..j])
    {
      assert hours[..j + 1][..j] == hours[..j];
      counts := counts[hours[j] := counts[hours[j]] + 1];
      j := j + 1;
    }
    assert hours[..j] == hours;
  }

  /** The loop over the times that keeps the readable hours. */
  method CollectHours(times: seq<string>) returns (hours: seq<Hour>)
    ensures hours == HoursOf(times)
  {
    hours := [];
    assert times[..0] == [];
    var i := 0;
    while i < |times|
      invariant 0 <= i <= |times|
      invariant hours == HoursOf(times[..i])
    {
      assert times[..i + 1][..i] == times[..i];
      var h := ParseHour(times[i]);
      if h.Some? {
        hours := hours + [h.value];
      }
      i := i + 1;
    }
    assert times[..i] == times;
  }

  function SumNat(s: seq<nat>): nat {
    if s == [] then 0 else SumNat(s[..|s| - 1]) + s[|s| - 1]
  }

  lemma {:induction false} SumNatBump(s: seq<nat>, h: nat)
    requires h < |s|
    ensures SumNat(s[h := s[h] + 1]) == SumNat(s) + 1
  {
    var n := |s| - 1;
    var t := s[h := s[h] + 1];
    if h == n {
      assert t[..n] == s[..n];
    } else {
      assert t[..n] == s[..n][h := s[h] + 1];
      SumNatBump(s[..n], h);
    }
  }

  lemma {:induction false} ZeroSum(s: seq<nat>)
    requires forall k | 0 <= k < |s| :: s[k] == 0
    ensures SumNat(s) == 0
  {
    if s != [] {
      ZeroSum(s[..|s| - 1]);
    }
  }

  /** The buckets add up to the number of readable hours, so never to more
      than the number of order times. */
  lemma {:induction false} HourTableSum(hours: seq<Hour>)
    ensures SumNat(HourTable(hours)) == |hours|
  {
    if hours == [] {
      ZeroSum(NoHours);
    } else {
      var init := hours[..|hours| - 1];
      HourTableSum(init);
      SumNatBump(HourTable(init), hours[|hours| - 1]);
    }
  }

  /** The chart never counts more orders than the day's timed orders. */
  lemma HourChartBounded(db: Db, date: string)
    ensures SumNat(HourTable(HoursOf(HourTimes(db, db.orders, date)))) <= |db.orders|
  {
    HourTableSum(HoursOf(HourTimes(db, db.orders, date)));
  }

  /** An order the chart counts in hour h: in a closed shift of the date,
      with a time whose hour is h. */
  predicate CountedAt(db: Db, o: Order, date: string, h: Hour) {
    InClosedShiftOn(db.shifts, o, date) && o.time.Some? && ParseHour(o.time.value) == Some(h)
  }

  /** The number of orders the chart counts in hour h. */
  function OrdersAtHour(db: Db, os: seq<Order>, date: string, h: Hour): nat {
    if os == [] then 0
    else OrdersAtHour(db, os[..|os| - 1], date, h) + (if CountedAt(db, os[|os| - 1], date, h) then 1 else 0)
  }

  /** The readable hours of the day's times hold h once per order counted in h. */
  lemma {:induction false} HoursCountOrders(db: Db, os: seq<Order>, date: string, h: Hour)
    ensures multiset(HoursOf(HourTimes(db, os, date)))[h] == OrdersAtHour(db, os, date, h)
  {
    if os != [] {
      var init := os[..|os| - 1];
      var o := os[|os| - 1];
      HoursCountOrders(db, init, date, h);
      HourTimesStep(db, os, date);
      if InClosedShiftOn(db.shifts, o, date) && o.time.Some? {
        HoursOfSnoc(HourTimes(db, init, date), o.time.value, h);
      }
    }
  }

  /** The times of a non-empty order list: those of all but the last order,
      then the last order's time when the chart takes it. */
  lemma HourTimesStep(db: Db, os: seq<Order>, date: string)
    requires os != []
    ensures var o := os[|os| - 1];
      HourTimes(db, os, date)
        == if InClosedShiftOn(db.shifts, o, date) && o.time.Some?
           then HourTimes(db, os[..|os| - 1], date) + [o.time.value]
           else HourTimes(db, os[..|os| - 1], date)
  {
  }

  /** One more time adds its hour, if it has one, to the count of h. */
  lemma HoursOfSnoc(times: seq<string>, t: string, h: Hour)
    ensures multiset(HoursOf(times + [t]))[h]
      == multiset(HoursOf(times))[h] + (if ParseHour(t) == Some(h) then 1 else 0)
  {
    var ts := times + [t];
    assert ts[..|ts| - 1] == times;
    assert ts[|ts| - 1] == t;
  }

  /** Bar h of the chart is the number of the day's orders in closed shifts
      whose time falls in hour h. */
  lemma HourChartCounts(db: Db, date: string, h: Hour)
    ensures HourTable(HoursOf(HourTimes(db, db.orders, date)))[h] == OrdersAtHour(db, db.orders, date, h)
  {
    HourTableCounts(HoursOf(HourTimes(db, db.orders, date)), h);
    HoursCountOrders(db, db.orders, date, h);
  }
}

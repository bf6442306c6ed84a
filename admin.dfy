/**
 * The administration page: the full recalculation, the manual override of
 * the accumulated off-cash balance, the reset, and the spreadsheet import
 * (pages/Admin.py). Each is stated here as a function of the database; the
 * Store class performs them in place.
 */
module Admin {
  import opened Util
  import opened Text
  import opened Settlement
  import opened Tables
  import opened Cells

  // ----- recalc_full_db -----

  /** One UPDATE of the recalculation: the derived columns recomputed from
      amount, tips and type, where any type other than "нал" is card. */
  function Resettle(o: Order): (r: Order)
    ensures IsSettled(r)
    ensures r.id == o.id && r.shiftId == o.shiftId && r.typ == o.typ && r.amount == o.amount
            && r.tips == o.tips && r.time == o.time
    ensures IsSettled(o) ==> r == o
  {
    var c := Settle(o.amount, o.tips, PaymentOfType(o.typ));
    o.(commission := c.commission, total := c.total, beznal := c.beznal)
  }

  /** Every order resettled, in place and in order. */
  function RecalcOrders(os: seq<Order>): (r: seq<Order>)
    ensures |r| == |os|
  {
    if os == [] then [] else RecalcOrders(os[..|os| - 1]) + [Resettle(os[|os| - 1])]
  }

  /** One more order of the prefix: its recalculation is appended. */
  lemma RecalcOrdersStep(os: seq<Order>, i: nat)
    requires i < |os|
    ensures RecalcOrders(os[..i + 1]) == RecalcOrders(os[..i]) + [Resettle(os[i])]
  {
    assert os[..i + 1][..i] == os[..i];
  }

  lemma {:induction false} RecalcOrdersAt(os: seq<Order>, k: nat)
    requires k < |os|
    ensures RecalcOrders(os)[k] == Resettle(os[k])
  {
    if k < |os| - 1 {
      RecalcOrdersAt(os[..|os| - 1], k);
    }
  }

  /** SELECT ... FROM orders, one UPDATE per row, then the ledger row set
      (or inserted) to COALESCE(SUM(beznal_added), 0). */
  function RecalcDb(db: Db): (r: Db)
    ensures r.shifts == db.shifts && |r.orders| == |db.orders|
    ensures r.ledger.Some?
  {
    var os := RecalcOrders(db.orders);
    Db(db.shifts, os, Some(SumBeznal(os)))
  }

  /** The recalculation keeps each order's identity and inputs, settles
      every order, and leaves the ledger balanced. */
  lemma RecalcSettles(db: Db)
    ensures forall k | 0 <= k < |db.orders| ::
              var o, r := db.orders[k], RecalcDb(db).orders[k];
              r.id == o.id && r.shiftId == o.shiftId && r.typ == o.typ && r.amount == o.amount
              && r.tips == o.tips && r.time == o.time
    ensures AllSettled(RecalcDb(db).orders)
    ensures Balanced(RecalcDb(db))
    ensures Wf(db) ==> Wf(RecalcDb(db))
  {
    forall k | 0 <= k < |db.orders| ensures RecalcDb(db).orders[k] == Resettle(db.orders[k]) {
      RecalcOrdersAt(db.orders, k);
    }
  }

  /** Orders that are already settled are left exactly as they are. */
  lemma {:induction false} RecalcOfSettled(os: seq<Order>)
    requires AllSettled(os)
    ensures RecalcOrders(os) == os
  {
    if os != [] {
      var init := os[..|os| - 1];
      assert AllSettled(init) by {
        forall k | 0 <= k < |init| ensures IsSettled(init[k]) {
          assert init[k] == os[k];
        }
      }
      RecalcOfSettled(init);
      assert IsSettled(os[|os| - 1]);
      assert os == init + [os[|os| - 1]];
    }
  }

  /** Running the recalculation twice gives the same state as running it once. */
  lemma RecalcIdempotent(db: Db)
    ensures RecalcDb(RecalcDb(db)) == RecalcDb(db)
  {
    RecalcSettles(db);
    RecalcOfSettled(RecalcDb(db).orders);
  }

  /** On a well-formed, balanced database the recalculation changes nothing. */
  lemma RecalcOfBalanced(db: Db)
    requires Wf(db) && Balanced(db)
    ensures RecalcDb(db) == db
  {
    RecalcOfSettled(db.orders);
  }

  // ----- the manual override -----

  /** UPDATE accumulated_beznal SET total_amount = value: the row, when it
      exists, holds the entered value whatever the orders hold. The input
      widget does not accept negative values. */
  function OverrideDb(db: Db, value: real): (r: Db)
    requires value >= 0.0
    ensures r.shifts == db.shifts && r.orders == db.orders
    ensures r.ledger.Some? <==> db.ledger.Some?
    ensures db.ledger.Some? ==> LedgerRead(r.ledger) == value
  {
    db.(ledger := if db.ledger.Some? then Some(value) else None)
  }

  /** Example: an override, then a recalculation, puts back the balance the
      orders determine. */
  lemma OverrideThenRecalc(db: Db, value: real)
    requires Wf(db) && Balanced(db) && value >= 0.0
    ensures RecalcDb(OverrideDb(db, value)) == db
  {
    RecalcOfSettled(db.orders);
  }

  // ----- reset_db and init_db -----

  /** reset_db as written: the file is deleted and the three tables are
      created empty; no accumulated_beznal row is inserted. */
  function ResetDb(): (r: Db)
    ensures r.shifts == [] && r.orders == [] && r.ledger.None?
  {
    Db([], [], None)
  }

  /** reset_db as evidently intended: empty tables and the ledger row at 0,
      as init_db would seed it. */
  function ResetReseeded(): (r: Db)
    ensures Wf(r) && Balanced(r)
  {
    Db([], [], Some(0.0))
  }

  /** init_db, run by the main page and the reports page: the ledger row is
      inserted at 0 when it is missing. */
  function InitDb(db: Db): (r: Db)
    ensures r.shifts == db.shifts && r.orders == db.orders && r.ledger.Some?
    ensures db.ledger.Some? ==> r == db
    ensures db.ledger.None? ==> r.ledger == Some(0.0)
  {
    if db.ledger.Some? then db else db.(ledger := Some(0.0))
  }

  // ----- the spreadsheet import -----

  /** One spreadsheet row after reading: the cells of the columns Дата, Тип,
      Сумма and Чаевые (None for a missing column or an empty cell). */
  datatype Row = Row(date: Cell, typ: Cell, amount: Cell, tips: Cell)

  /** The rows kept by replacing blank Сумма cells with NA and dropping NA. */
  predicate AmountPresent(r: Row) {
    r.amount.Some? && !AllSpace(r.amount.value)
  }

  function KeptRows(rows: seq<Row>): (r: seq<Row>)
    ensures |r| <= |rows|
    ensures forall k | 0 <= k < |r| :: AmountPresent(r[k])
  {
    if rows == [] then []
    else
      var init := KeptRows(rows[..|rows| - 1]);
      if AmountPresent(rows[|rows| - 1]) then init + [rows[|rows| - 1]] else init
  }

  /** A row is kept exactly when it is a row with an amount. */
  lemma {:induction false} KeptRowsMembers(rows: seq<Row>, r: Row)
    ensures r in KeptRows(rows) <==> r in rows && AmountPresent(r)
  {
    if rows != [] {
      KeptRowsMembers(rows[..|rows| - 1], r);
      assert rows == rows[..|rows| - 1] + [rows[|rows| - 1]];
    }
  }

  /** The verdict on one kept row. */
  datatype RowCheck = BadAmount | BlankDate | Accept(amount: real, date: string, payment: Payment, tips: real)

  /** The amount must parse, then the date must not be blank; the type is
      read through the aliases and the tips default to 0. */
  function CheckRow(row: Row): (r: RowCheck)
    ensures r == BadAmount <==> SafeNumCell(row.amount, None).None?
    ensures r == BlankDate <==>
              SafeNumCell(row.amount, None).Some? && (row.date.None? || AllSpace(row.date.value))
    ensures r.Accept? ==>
              Some(r.amount) == SafeNumCell(row.amount, None)
              && r.date == Strip(row.date.value) && r.date != "" && IsStripped(r.date)
              && r.payment == PaymentAlias(row.typ)
              && Some(r.tips) == SafeNumCell(row.tips, Some(0.0))
  {
    match SafeNumCell(row.amount, None)
    case None => BadAmount
    case Some(amount) =>
      var date := SafeStrCell(row.date, "");
      if date == "" then BlankDate
      else Accept(amount, date, PaymentAlias(row.typ), SafeNumCell(row.tips, Some(0.0)).value)
  }

  /** SELECT id FROM shifts WHERE date = ?, and when there is none an
      INSERT of a closed shift whose opened_at and closed_at are the date. */
  function FindOrCreateShift(db: Db, date: string): (r: (Db, nat))
    ensures r.0.orders == db.orders && r.0.ledger == db.ledger
    ensures |db.shifts| <= |r.0.shifts| <= |db.shifts| + 1 && r.0.shifts[..|db.shifts|] == db.shifts
    ensures forall j | |db.shifts| <= j < |r.0.shifts| :: !r.0.shifts[j].isOpen && r.0.shifts[j].date == date
    ensures FirstWithDate(r.0.shifts, date).Some?
    ensures r.1 == r.0.shifts[FirstWithDate(r.0.shifts, date).value].id
    ensures FirstWithDate(db.shifts, date).Some? ==> r.0 == db
    ensures FirstWithDate(db.shifts, date).None? ==>
              r.0.shifts == db.shifts + [Shift(|db.shifts| + 1, date, 0, 0.0, 0.0, false, Some(date), Some(date))]
              && r.1 == |db.shifts| + 1
  {
    match FirstWithDate(db.shifts, date)
    case Some(k) => (db, db.shifts[k].id)
    case None =>
      var id := |db.shifts| + 1;
      var s := Shift(id, date, 0, 0.0, 0.0, false, Some(date), Some(date));
      var shifts := db.shifts + [s];
      assert shifts[..|db.shifts|] == db.shifts;
      FirstWithDateAppend(db.shifts, s);
      (db.(shifts := shifts), id)
  }

  lemma FirstWithDateAppend(shifts: seq<Shift>, s: Shift)
    requires FirstWithDate(shifts, s.date).None?
    ensures FirstWithDate(shifts + [s], s.date) == Some(|shifts|)
  {
    assert (shifts + [s])[|shifts|] == s;
    assert forall k | 0 <= k < |shifts| :: (shifts + [s])[k] == shifts[k];
  }

  /** The counters and the database as the import loop carries them. */
  datatype ImportState = ImportState(db: Db, imported: nat, errors: nat)

  /** One pass of the import loop: a bad amount or a blank date counts an
      error and writes nothing; otherwise the row is imported. */
  function ImportRow(st: ImportState, row: Row): (r: ImportState)
    ensures r.imported + r.errors == st.imported + st.errors + 1
    ensures !CheckRow(row).Accept? ==> r == st.(errors := st.errors + 1)
    ensures CheckRow(row).Accept? ==>
              var a := CheckRow(row);
              r == ImportAccepted(st, a.amount, a.date, a.payment, a.tips)
  {
    match CheckRow(row)
    case BadAmount => st.(errors := st.errors + 1)
    case BlankDate => st.(errors := st.errors + 1)
    case Accept(amount, date, p, tips) => ImportAccepted(st, amount, date, p, tips)
  }

  /** An accepted row: the order is settled and saved in the shift of its
      date, and counted as imported. */
  function ImportAccepted(st: ImportState, amount: real, date: string, p: Payment, tips: real): (r: ImportState)
    ensures r.imported == st.imported + 1 && r.errors == st.errors
    ensures r.db.shifts == FindOrCreateShift(st.db, date).0.shifts
    ensures |r.db.orders| == |st.db.orders| + 1 && r.db.orders[..|st.db.orders|] == st.db.orders
    ensures var o := r.db.orders[|st.db.orders|];
      o.id == |st.db.orders| + 1 && o.shiftId == FindOrCreateShift(st.db, date).1
      && o.typ == TypeName(p) && o.amount == amount && o.tips == tips && o.time.None? && IsSettled(o)
      && r.db.ledger == Adjust(st.db.ledger, o.beznal)
  {
    var (db, sid) := FindOrCreateShift(st.db, date);
    ImportState(SaveOrder(db, ImportedOrder(db, sid, amount, p, tips)), st.imported + 1, st.errors)
  }

  /** The order row the importer inserts: no order time. */
  function ImportedOrder(db: Db, sid: nat, amount: real, p: Payment, tips: real): (o: Order)
    ensures o.id == |db.orders| + 1 && o.shiftId == sid && o.typ == TypeName(p)
    ensures o.amount == amount && o.tips == tips && o.time.None? && IsSettled(o)
  {
    var c := Settle(amount, tips, p);
    Order(|db.orders| + 1, sid, TypeName(p), amount, tips, c.commission, c.total, c.beznal, None)
  }

  /** The loop over the kept rows, in order. */
  function ImportRows(st: ImportState, rows: seq<Row>): (r: ImportState)
    ensures st.imported <= r.imported && st.errors <= r.errors
  {
    if rows == [] then st else ImportRow(ImportRows(st, rows[..|rows| - 1]), rows[|rows| - 1])
  }

  /** import_from_excel / import_from_gsheet after the sheet is read: nothing
      happens without a Сумма column or without a row that has an amount;
      otherwise the kept rows are imported with both counters from 0. */
  function ImportSheet(db: Db, hasAmountColumn: bool, rows: seq<Row>): (r: ImportState)
    ensures !hasAmountColumn || KeptRows(rows) == [] ==> r == ImportState(db, 0, 0)
  {
    if !hasAmountColumn then ImportState(db, 0, 0)
    else
      var kept := KeptRows(rows);
      if kept == [] then ImportState(db, 0, 0)
      else ImportRows(ImportState(db, 0, 0), kept)
  }

  /** Each row counts exactly once, as imported or as an error. */
  lemma {:induction false} ImportCounters(st: ImportState, rows: seq<Row>)
    ensures ImportRows(st, rows).imported + ImportRows(st, rows).errors == st.imported + st.errors + |rows|
  {
    if rows != [] {
      ImportCounters(st, rows[..|rows| - 1]);
    }
  }

  lemma SheetCounters(db: Db, hasAmountColumn: bool, rows: seq<Row>)
    requires hasAmountColumn
    ensures ImportSheet(db, hasAmountColumn, rows).imported + ImportSheet(db, hasAmountColumn, rows).errors
            == |KeptRows(rows)|
  {
    ImportCounters(ImportState(db, 0, 0), KeptRows(rows));
  }

  /** What one imported row does to the database, in terms Balanced and Wf
      can use: shifts and orders only grow, new shifts are closed and are
      the first with their date, and the ledger moves by the new deltas. */
  predicate Grows(db: Db, db': Db) {
    |db.shifts| <= |db'.shifts| && db'.shifts[..|db.shifts|] == db.shifts
    && |db.orders| <= |db'.orders| && db'.orders[..|db.orders|] == db.orders
    && (forall j | |db.shifts| <= j < |db'.shifts| :: !db'.shifts[j].isOpen)
    && db'.ledger == Adjust(db.ledger, SumBeznal(db'.orders[|db.orders|..]))
  }

  lemma AdjustTwice(l: Option<real>, a: real, b: real)
    ensures Adjust(Adjust(l, a), b) == Adjust(l, a + b)
  {
  }

  lemma GrowsTransitive(a: Db, b: Db, c: Db)
    requires Grows(a, b) && Grows(b, c)
    ensures Grows(a, c)
  {
    assert c.shifts[..|a.shifts|] == c.shifts[..|b.shifts|][..|a.shifts|];
    assert c.orders[..|a.orders|] == c.orders[..|b.orders|][..|a.orders|];
    var d1, d2 := b.orders[|a.orders|..], c.orders[|b.orders|..];
    assert c.orders[|a.orders|..] == d1 + d2;
    SumAppend(d1, d2, Beznal);
    AdjustTwice(a.ledger, SumBeznal(d1), SumBeznal(d2));
  }

  /** One accepted row adds one order and at most one closed shift, and moves
      the ledger by the order's delta. */
  lemma AcceptedGrows(st: ImportState, amount: real, date: string, p: Payment, tips: real)
    ensures var r := ImportAccepted(st, amount, date, p, tips).db;
      Grows(st.db, r) && |r.orders| == |st.db.orders| + 1
  {
    var db := st.db;
    var (db1, sid) := FindOrCreateShift(db, date);
    var o := ImportedOrder(db1, sid, amount, p, tips);
    var r := SaveOrder(db1, o);
    assert r.orders == db.orders + [o];
    assert r.orders[..|db.orders|] == db.orders;
    assert r.orders[|db.orders|..] == [o];
    assert SumBeznal([o]) == o.beznal by {
      assert [o][..0] == [];
    }
  }

  lemma {:induction false} ImportGrows(st: ImportState, rows: seq<Row>)
    ensures Grows(st.db, ImportRows(st, rows).db)
    ensures |ImportRows(st, rows).db.orders| == |st.db.orders| + ImportRows(st, rows).imported - st.imported
    ensures ImportRows(st, rows).imported >= st.imported
  {
    if rows == [] {
      assert st.db.orders[|st.db.orders|..] == [];
      assert st.db.shifts[..|st.db.shifts|] == st.db.shifts;
      assert st.db.orders[..|st.db.orders|] == st.db.orders;
    } else {
      var init := rows[..|rows| - 1];
      var mid := ImportRows(st, init);
      ImportGrows(st, init);
      var row := rows[|rows| - 1];
      if CheckRow(row).Accept? {
        var a := CheckRow(row);
        AcceptedGrows(mid, a.amount, a.date, a.payment, a.tips);
        GrowsTransitive(st.db, mid.db, ImportRows(st, rows).db);
      }
    }
  }

  /** The ledger after an import is the ledger before plus the deltas of the
      imported orders; a missing ledger row stays missing. */
  lemma ImportRaisesLedger(db: Db, hasAmountColumn: bool, rows: seq<Row>)
    ensures var r := ImportSheet(db, hasAmountColumn, rows).db;
      |db.orders| <= |r.orders| && r.orders[..|db.orders|] == db.orders
      && r.ledger == Adjust(db.ledger, SumBeznal(r.orders[|db.orders|..]))
  {
    var r := ImportSheet(db, hasAmountColumn, rows).db;
    if hasAmountColumn && KeptRows(rows) != [] {
      ImportGrows(ImportState(db, 0, 0), KeptRows(rows));
    } else {
      assert r.orders[|db.orders|..] == [];
      assert r.orders[..|db.orders|] == db.orders;
    }
  }

  /** The verdicts of the rows the loop accepts, in sheet order. */
  function AcceptedRows(rows: seq<Row>): (r: seq<RowCheck>)
    ensures |r| <= |rows|
    ensures forall k | 0 <= k < |r| :: r[k].Accept?
  {
    if rows == [] then []
    else
      var init := AcceptedRows(rows[..|rows| - 1]);
      var c := CheckRow(rows[|rows| - 1]);
      if c.Accept? then init + [c] else init
  }

  /** The rows of a sheet the import accepts: none without a Сумма column. */
  function SheetAccepted(hasAmountColumn: bool, rows: seq<Row>): seq<RowCheck> {
    if hasAmountColumn then AcceptedRows(KeptRows(rows)) else []
  }

  /** The off-cash deltas the accepted rows settle to. */
  function AcceptedBeznal(acs: seq<RowCheck>): real
    requires forall k | 0 <= k < |acs| :: acs[k].Accept?
  {
    if acs == [] then 0.0
    else
      var a := acs[|acs| - 1];
      AcceptedBeznal(acs[..|acs| - 1]) + Settle(a.amount, a.tips, a.payment).beznal
  }

  /** Order o, numbered id, is the row a saved: its amount, tips and type, no
      time, settled, and in the first shift of the row's date in db. */
  predicate SavedAs(db: Db, o: Order, a: RowCheck, id: nat)
    requires a.Accept?
  {
    o.id == id && o.amount == a.amount && o.tips == a.tips && o.typ == TypeName(a.payment)
    && o.time.None? && IsSettled(o)
    && FirstWithDate(db.shifts, a.date).Some?
    && o.shiftId == db.shifts[FirstWithDate(db.shifts, a.date).value].id
  }

  /** Appending shifts does not move the first shift of a date already present. */
  lemma SavedAsKept(db: Db, db': Db, o: Order, a: RowCheck, id: nat)
    requires a.Accept? && SavedAs(db, o, a, id)
    requires |db.shifts| <= |db'.shifts| && db'.shifts[..|db.shifts|] == db.shifts
    ensures SavedAs(db', o, a, id)
  {
    var j := FirstWithDate(db.shifts, a.date).value;
    assert db'.shifts[j] == db.shifts[j];
    assert forall k | 0 <= k < j :: db'.shifts[k] == db.shifts[k];
  }

  /** The orders of db from index n on are the rows acs, saved in order. */
  predicate SavedFrom(db: Db, n: nat, acs: seq<RowCheck>)
    requires forall k | 0 <= k < |acs| :: acs[k].Accept?
  {
    |db.orders| == n + |acs|
    && forall k | 0 <= k < |acs| :: SavedAs(db, db.orders[n + k], acs[k], n + k + 1)
  }

  /** Accepting one more row saves it after the rows saved so far. */
  lemma SavedFromStep(st: ImportState, n: nat, acs: seq<RowCheck>, c: RowCheck)
    requires forall k | 0 <= k < |acs| :: acs[k].Accept?
    requires c.Accept? && SavedFrom(st.db, n, acs)
    ensures var r := ImportAccepted(st, c.amount, c.date, c.payment, c.tips);
      SavedFrom(r.db, n, acs + [c]) && r.db.orders[..n] == st.db.orders[..n]
  {
    var r := ImportAccepted(st, c.amount, c.date, c.payment, c.tips);
    var acs' := acs + [c];
    assert r.db.orders[..|st.db.orders|] == st.db.orders;
    forall k | 0 <= k < |acs'| ensures SavedAs(r.db, r.db.orders[n + k], acs'[k], n + k + 1) {
      if k < |acs| {
        assert r.db.orders[n + k] == st.db.orders[n + k];
        SavedAsKept(st.db, r.db, st.db.orders[n + k], acs[k], n + k + 1);
      }
    }
  }

  /** The orders an import appends are exactly the accepted rows, in order:
      the k-th new order is numbered after the existing ones and carries the
      k-th accepted row's amount, tips and type, settled, in the first shift
      of that row's date. */
  lemma {:induction false} ImportSavesRows(st: ImportState, rows: seq<Row>)
    ensures var r := ImportRows(st, rows); var n := |st.db.orders|; var acs := AcceptedRows(rows);
      r.imported == st.imported + |acs| && SavedFrom(r.db, n, acs) && r.db.orders[..n] == st.db.orders
  {
    var n := |st.db.orders|;
    if rows == [] {
      assert st.db.orders[..n] == st.db.orders;
    } else {
      var init := rows[..|rows| - 1];
      var mid := ImportRows(st, init);
      ImportSavesRows(st, init);
      var c := CheckRow(rows[|rows| - 1]);
      if c.Accept? {
        SavedFromStep(mid, n, AcceptedRows(init), c);
      }
    }
  }

  /** The deltas of orders saved from rows are the deltas the rows settle to. */
  lemma {:induction false} SavedBeznal(os: seq<Order>, acs: seq<RowCheck>, db: Db, n: nat)
    requires |os| == |acs| && forall k | 0 <= k < |acs| :: acs[k].Accept?
    requires forall k | 0 <= k < |acs| :: SavedAs(db, os[k], acs[k], n + k + 1)
    ensures SumBeznal(os) == AcceptedBeznal(acs)
  {
    if os != [] {
      var m := |os| - 1;
      SavedBeznal(os[..m], acs[..m], db, n);
      assert acs[..m][..m] == acs[..m];
      assert SavedAs(db, os[m], acs[m], n + m + 1);
    }
  }

  /** Orders saved from rows at the end of a table: their deltas are the rows'. */
  lemma SavedFromBeznal(db: Db, n: nat, acs: seq<RowCheck>)
    requires forall k | 0 <= k < |acs| :: acs[k].Accept?
    requires SavedFrom(db, n, acs)
    ensures SumBeznal(db.orders[n..]) == AcceptedBeznal(acs)
  {
    var added := db.orders[n..];
    assert forall k | 0 <= k < |acs| :: added[k] == db.orders[n + k];
    SavedBeznal(added, acs, db, n);
  }

  /** After a sheet import the new orders are exactly the accepted rows. */
  lemma SheetSavesRows(db: Db, hasAmountColumn: bool, rows: seq<Row>)
    ensures var r := ImportSheet(db, hasAmountColumn, rows); var acs := SheetAccepted(hasAmountColumn, rows);
      r.imported == |acs| && SavedFrom(r.db, |db.orders|, acs) && r.db.orders[..|db.orders|] == db.orders
  {
    if hasAmountColumn {
      ImportSavesRows(ImportState(db, 0, 0), KeptRows(rows));
    } else {
      assert db.orders[..|db.orders|] == db.orders;
    }
  }

  /** The headline of the import: the ledger moves by exactly the deltas the
      accepted rows of the sheet settle to. */
  lemma SheetRaisesLedger(db: Db, hasAmountColumn: bool, rows: seq<Row>)
    ensures ImportSheet(db, hasAmountColumn, rows).db.ledger
            == Adjust(db.ledger, AcceptedBeznal(SheetAccepted(hasAmountColumn, rows)))
  {
    SheetSavesRows(db, hasAmountColumn, rows);
    ImportRaisesLedger(db, hasAmountColumn, rows);
    SavedFromBeznal(ImportSheet(db, hasAmountColumn, rows).db, |db.orders|, SheetAccepted(hasAmountColumn, rows));
  }

  /** One accepted row keeps the invariants and the open shift. */
  lemma AcceptedKeeps(st: ImportState, amount: real, date: string, p: Payment, tips: real)
    requires Wf(st.db)
    ensures var r := ImportAccepted(st, amount, date, p, tips).db;
      Wf(r) && (Balanced(st.db) ==> Balanced(r)) && OpenShiftIndex(r.shifts) == OpenShiftIndex(st.db.shifts)
  {
    var (db1, sid) := FindOrCreateShift(st.db, date);
    var o := ImportedOrder(db1, sid, amount, p, tips);
    FindOrCreateKeeps(st.db, date);
    assert o.typ == Nal || o.typ == Karta;
    SaveOrderKeepsInvariants(db1, o);
  }

  /** The import keeps the invariants: new shifts are closed, so the open
      shift, if any, is still the only one; and a balanced ledger stays
      balanced. */
  lemma {:induction false} ImportKeepsInvariants(st: ImportState, rows: seq<Row>)
    requires Wf(st.db)
    ensures Wf(ImportRows(st, rows).db)
    ensures Balanced(st.db) ==> Balanced(ImportRows(st, rows).db)
    ensures OpenShiftIndex(ImportRows(st, rows).db.shifts) == OpenShiftIndex(st.db.shifts)
  {
    if rows != [] {
      var init := rows[..|rows| - 1];
      var mid := ImportRows(st, init);
      ImportKeepsInvariants(st, init);
      var row := rows[|rows| - 1];
      if CheckRow(row).Accept? {
        var a := CheckRow(row);
        AcceptedKeeps(mid, a.amount, a.date, a.payment, a.tips);
      }
    }
  }

  lemma FindOrCreateKeeps(db: Db, date: string)
    requires Wf(db)
    ensures var (db1, sid) := FindOrCreateShift(db, date);
      Wf(db1) && 1 <= sid <= |db1.shifts| && (Balanced(db) ==> Balanced(db1))
      && OpenShiftIndex(db1.shifts) == OpenShiftIndex(db.shifts)
  {
    var (db1, sid) := FindOrCreateShift(db, date);
    if FirstWithDate(db.shifts, date).None? {
      var s := db1.shifts[|db.shifts|];
      assert db1.shifts == db.shifts + [s];
      OpenShiftAppendClosed(db.shifts, s);
      assert OrdersInShifts(db1.orders, |db1.shifts|);
    }
  }

  lemma OpenShiftAppendClosed(shifts: seq<Shift>, s: Shift)
    requires !s.isOpen
    ensures OpenShiftIndex(shifts + [s]) == OpenShiftIndex(shifts)
  {
    var r := OpenShiftIndex(shifts + [s]);
    var q := OpenShiftIndex(shifts);
    assert (shifts + [s])[|shifts|] == s;
    assert forall k | 0 <= k < |shifts| :: (shifts + [s])[k] == shifts[k];
    if r.Some? {
      assert r.value < |shifts|;
    }
  }

  /** The order sits in the first shift with its shift's date. */
  predicate InFirstShift(shifts: seq<Shift>, o: Order) {
    0 < o.shiftId <= |shifts|
    && FirstWithDate(shifts, shifts[o.shiftId - 1].date) == Some(o.shiftId - 1)
  }

  /** Every order sits in the first shift with its shift's date. */
  predicate GroupedByDate(db: Db) {
    forall k | 0 <= k < |db.orders| :: InFirstShift(db.shifts, db.orders[k])
  }

  /** Finding or creating a shift for a date keeps an order in its first
      shift. */
  lemma StillFirst(db: Db, date: string, o: Order)
    requires Wf(db) && InFirstShift(db.shifts, o)
    ensures InFirstShift(FindOrCreateShift(db, date).0.shifts, o)
  {
    var db1 := FindOrCreateShift(db, date).0;
    FindOrCreateKeepsFirst(db, date);
    var j := o.shiftId - 1;
    assert db1.shifts[j] == db.shifts[j];
  }

  /** The shift found or created for a date is the first with that date. */
  lemma FoundIsFirst(db: Db, date: string)
    requires Wf(db)
    ensures var (db1, sid) := FindOrCreateShift(db, date);
      0 < sid <= |db1.shifts| && FirstWithDate(db1.shifts, db1.shifts[sid - 1].date) == Some(sid - 1)
  {
    var (db1, sid) := FindOrCreateShift(db, date);
    FindOrCreateKeeps(db, date);
    FindOrCreateKeepsFirst(db, date);
    var j := FirstWithDate(db1.shifts, date).value;
    assert sid == db1.shifts[j].id == j + 1;
  }

  lemma AcceptedGroups(st: ImportState, amount: real, date: string, p: Payment, tips: real)
    requires Wf(st.db) && GroupedByDate(st.db)
    ensures GroupedByDate(ImportAccepted(st, amount, date, p, tips).db)
  {
    var db := st.db;
    var (db1, sid) := FindOrCreateShift(db, date);
    var o := ImportedOrder(db1, sid, amount, p, tips);
    var end := SaveOrder(db1, o);
    assert end.orders == db.orders + [o];
    assert end.shifts == db1.shifts;
    forall k | 0 <= k < |end.orders|
      ensures InFirstShift(end.shifts, end.orders[k])
    {
      if k == |db.orders| {
        FoundIsFirst(db, date);
      } else {
        StillFirst(db, date, db.orders[k]);
      }
    }
  }

  /** Rows sharing a date land in one shift: on a database where every order
      is in the first shift with its date (an empty one, say), the import
      keeps it so. */
  lemma {:induction false} ImportGroupsByDate(st: ImportState, rows: seq<Row>)
    requires Wf(st.db) && GroupedByDate(st.db)
    ensures GroupedByDate(ImportRows(st, rows).db)
  {
    if rows != [] {
      var init := rows[..|rows| - 1];
      var mid := ImportRows(st, init);
      ImportGroupsByDate(st, init);
      ImportKeepsInvariants(st, init);
      var row := rows[|rows| - 1];
      if CheckRow(row).Accept? {
        var a := CheckRow(row);
        AcceptedGroups(mid, a.amount, a.date, a.payment, a.tips);
      }
    }
  }

  /** Adding a shift only for a date no shift has keeps every existing
      shift's first-with-date position. */
  lemma FindOrCreateKeepsFirst(db: Db, date: string)
    requires Wf(db)
    ensures var (db1, sid) := FindOrCreateShift(db, date);
      (forall j | 0 <= j < |db.shifts| ::
         FirstWithDate(db1.shifts, db.shifts[j].date) == FirstWithDate(db.shifts, db.shifts[j].date))
      && FirstWithDate(db1.shifts, date) == Some(sid - 1)
  {
    var (db1, sid) := FindOrCreateShift(db, date);
    if FirstWithDate(db.shifts, date).None? {
      var s := db1.shifts[|db.shifts|];
      assert db1.shifts == db.shifts + [s];
      forall j | 0 <= j < |db.shifts|
        ensures FirstWithDate(db1.shifts, db.shifts[j].date) == FirstWithDate(db.shifts, db.shifts[j].date)
      {
        FirstWithDatePrefix(db.shifts, s, db.shifts[j].date, j);
      }
    }
  }

  lemma FirstWithDatePrefix(shifts: seq<Shift>, s: Shift, date: string, j: nat)
    requires j < |shifts| && shifts[j].date == date
    ensures FirstWithDate(shifts + [s], date) == FirstWithDate(shifts, date)
  {
    assert forall k | 0 <= k < |shifts| :: (shifts + [s])[k] == shifts[k];
    var q := FirstWithDate(shifts, date);
    assert q.Some? && q.value <= j;
  }

  /** A row without an amount, or with a blank date, changes nothing but the
      error counter. */
  lemma RejectedRowWritesNothing(st: ImportState, row: Row)
    requires SafeNumCell(row.amount, None).None? || row.date.None? || AllSpace(row.date.value)
    ensures ImportRow(st, row).db == st.db && ImportRow(st, row).errors == st.errors + 1
  {
  }

  // ----- the ledger row after a reset -----

  /** The row that shows it: one cash order of n with a date, imported right
      after a reset. */
  function CashRow(date: string, n: nat): Row {
    Row(Some(date), None, Some(NatToDigits(n)), None)
  }

  lemma CashRowAccepted(date: string, n: nat)
    requires IsStripped(date) && date != ""
    ensures CheckRow(CashRow(date, n)) == Accept(n as real, date, Cash, 0.0)
  {
    WholeNumberCell(n, None);
    DatedCashRow(CashRow(date, n), n as real);
  }

  /** A row with an amount x, a stripped date and no type or tips cells is
      accepted as a cash order of x without tips. */
  lemma DatedCashRow(row: Row, x: real)
    requires SafeNumCell(row.amount, None) == Some(x)
    requires row.date.Some? && IsStripped(row.date.value) && row.date.value != ""
    requires row.typ.None? && row.tips.None?
    ensures CheckRow(row) == Accept(x, row.date.value, Cash, 0.0)
  {
    var date := row.date.value;
    StripOfStripped(date);
    assert !AllSpace(date) by { assert !IsSpace(date[0]); }
    MissingTypeIsCash(None);
  }

  /** As written, an import right after reset_db writes orders whose deltas
      go nowhere: the page reads an off-cash balance of 0, and the next
      init_db seeds the row at 0, not at the sum of the deltas. */
  lemma ResetLosesImportedDeltas(date: string, n: nat)
    requires IsStripped(date) && date != "" && n > 0
    ensures var r := ImportSheet(ResetDb(), true, [CashRow(date, n)]).db;
      |r.orders| == 1 && SumBeznal(r.orders) == -(n as real) * (1.0 - 0.78)
      && LedgerRead(r.ledger) == 0.0
      && InitDb(r).ledger == Some(0.0) && !Balanced(InitDb(r))
  {
    var row := CashRow(date, n);
    CashRowAccepted(date, n);
    assert AmountPresent(row) by { WholeText(n); }
    SingleRowSheet(ResetDb(), row);
    var r := ImportAccepted(ImportState(ResetDb(), 0, 0), n as real, date, Cash, 0.0).db;
    CashIntoDetached(n as real, date);
    UnseededAfterDebit(r, -(n as real) * (1.0 - 0.78));
  }

  /** A sheet of one row with an amount is that row's import. */
  lemma SingleRowSheet(db: Db, row: Row)
    requires AmountPresent(row)
    ensures ImportSheet(db, true, [row]) == ImportRow(ImportState(db, 0, 0), row)
  {
    var rows := [row];
    assert rows[..0] == [] && rows[0] == row;
    assert KeptRows(rows[..0]) == [];
    assert KeptRows(rows) == [] + [row];
    assert ImportRows(ImportState(db, 0, 0), rows[..0]) == ImportState(db, 0, 0);
  }

  /** Importing a cash fare into the reset database: one order, carrying the
      fare's debit, and still no ledger row. */
  lemma CashIntoDetached(x: real, date: string)
    ensures var r := ImportAccepted(ImportState(ResetDb(), 0, 0), x, date, Cash, 0.0).db;
      |r.orders| == 1 && SumBeznal(r.orders) == -x * (1.0 - 0.78) && r.ledger.None?
  {
    var (db, sid) := FindOrCreateShift(ResetDb(), date);
    var o := ImportedOrder(db, sid, x, Cash, 0.0);
    assert o.beznal == -x * (1.0 - 0.78);
    assert SaveOrder(db, o).orders == [o];
    assert SumBeznal([o]) == o.beznal by { assert [o][..0] == []; }
  }

  /** Without a ledger row the page reads 0 and init_db seeds 0, which is
      unbalanced as soon as the orders carry a non-zero debit. */
  lemma UnseededAfterDebit(r: Db, debit: real)
    requires r.ledger.None? && SumBeznal(r.orders) == debit && debit != 0.0
    ensures LedgerRead(r.ledger) == 0.0 && InitDb(r).ledger == Some(0.0) && !Balanced(InitDb(r))
  {
  }

  /** With the reset that seeds the row, the same import is balanced; in
      general an import keeps a freshly reset database balanced. */
  lemma ReseededImportBalanced(rows: seq<Row>)
    ensures Balanced(ImportSheet(ResetReseeded(), true, rows).db)
    ensures Wf(ImportSheet(ResetReseeded(), true, rows).db)
  {
    if KeptRows(rows) != [] {
      ImportKeepsInvariants(ImportState(ResetReseeded(), 0, 0), KeptRows(rows));
    }
  }
}

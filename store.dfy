/**
 * taxi.db as the pages change it: the shifts and orders tables and driver 1's
 * accumulated_beznal row, updated in place by each user action. Every method
 * is proved to produce the state its step function in Actions or Admin
 * describes, and the invariants proved there carry over.
 */
module Store {
  import opened Util
  import opened Text
  import opened Settlement
  import opened Cells
  import opened Tables
  import opened Fuel
  import opened Actions
  import opened Admin

  class Store {
    var shifts: seq<Shift>
    var orders: seq<Order>
    var ledger: Option<real>

    function Snapshot(): Db
      reads this
    {
      Db(shifts, orders, ledger)
    }

    /** A new database after init_db: empty tables and the ledger row at 0. */
    constructor ()
      ensures Snapshot() == Db([], [], Some(0.0))
      ensures Wf(Snapshot()) && Balanced(Snapshot())
    {
      shifts := [];
      orders := [];
      ledger := Some(0.0);
    }

    /** init_db: insert the ledger row at 0 when it is missing. */
    method EnsureLedgerRow()
      modifies this
      ensures Snapshot() == InitDb(old(Snapshot()))
    {
      if ledger.None? {
        ledger := Some(0.0);
      }
    }

    /** add_to_accumulated_beznal: an UPDATE that adds to the row if it exists. */
    method AddToLedger(amount: real)
      modifies this
      ensures shifts == old(shifts) && orders == old(orders)
      ensures ledger == Adjust(old(ledger), amount)
    {
      if ledger.Some? {
        ledger := Some(ledger.value + amount);
      }
    }

    /** add_order_db, then add_to_accumulated_beznal when the delta is not
        zero: the order appended and the ledger row moved by its delta. */
    method InsertOrder(o: Order)
      modifies this
      ensures Snapshot() == SaveOrder(old(Snapshot()), o)
    {
      orders := orders + [o];
      if o.beznal != 0.0 {
        AddToLedger(o.beznal);
      }
    }

    /** The open-shift form, offered only while get_open_shift finds nothing. */
    method OpenShift(date: string, now: string) returns (id: Option<nat>)
      modifies this
      ensures (Snapshot(), id) == OpenStep(old(Snapshot()), date, now)
      ensures old(Wf(Snapshot())) ==> Wf(Snapshot())
      ensures old(Balanced(Snapshot())) ==> Balanced(Snapshot())
    {
      ghost var before := Snapshot();
      if OpenShiftIndex(shifts).Some? {
        return None;
      }
      var newId := |shifts| + 1;
      shifts := shifts + [Shift(newId, date, 0, 0.0, 0.0, true, Some(now), None)];
      id := Some(newId);
      if Wf(before) {
        OpenKeepsInvariants(before, date, now);
      }
    }

    /** The order form: parse the amount and the tips, settle, insert the
        order in the open shift and, for a non-zero delta, move the ledger.
        On success the result is the new order's id. */
    method AddOrder(amountText: string, payment: string, tipsText: string, time: string)
      returns (r: Result<nat, FormError>)
      modifies this
      ensures r.Err? ==> Snapshot() == old(Snapshot())
                         && AddOrderStep(old(Snapshot()), amountText, payment, tipsText, time) == Err(r.error)
      ensures r.Ok? ==> AddOrderStep(old(Snapshot()), amountText, payment, tipsText, time) == Ok(Snapshot())
                        && r.value == |orders|
      ensures r.Ok? && old(Wf(Snapshot())) ==> Wf(Snapshot())
      ensures r.Ok? && old(Wf(Snapshot()) && Balanced(Snapshot())) ==> Balanced(Snapshot())
    {
      ghost var before := Snapshot();
      var open := OpenShiftIndex(shifts);
      if open.None? {
        return Err(NoOpenShift);
      }
      var form := ReadOrderForm(amountText, tipsText);
      if form.Err? {
        return Err(form.error);
      }
      var amount, tips := form.value.0, form.value.1;
      var typ, commission, total, beznalAdded := SettleBlock(amount, tips, payment);
      var o := Order(|orders| + 1, shifts[open.value].id, typ, amount, tips, commission, total, beznalAdded, Some(time));
      assert o == NewOrder(before, shifts[open.value].id, payment, amount, tips, time);
      InsertOrder(o);
      r := Ok(|orders|);
      if Wf(before) {
        AddOrderKeepsInvariants(before, amountText, payment, tipsText, time);
      }
    }

    /** The close form: litres and petrol cost from the inputs, the open
        shift closed with km, litres, the entered price and the time, and the
        summary from the shift's totals. None when no shift is open. */
    method CloseShift(km: nat, consumption: real, price: real, now: string) returns (r: Option<CloseSummary>)
      modifies this
      ensures CloseStep(old(Snapshot()), km, consumption, price, now).None? ==>
                r.None? && Snapshot() == old(Snapshot())
      ensures CloseStep(old(Snapshot()), km, consumption, price, now).Some? ==>
                r.Some? && CloseStep(old(Snapshot()), km, consumption, price, now) == Some((Snapshot(), r.value))
      ensures old(Wf(Snapshot())) ==> Wf(Snapshot())
      ensures old(Wf(Snapshot()) && Balanced(Snapshot())) ==> Balanced(Snapshot())
    {
      ghost var before := Snapshot();
      var open := OpenShiftIndex(shifts);
      if open.None? {
        return None;
      }
      var k := open.value;
      var totals := ShiftTotals(orders, shifts[k].id);
      var liters: real, fuelCost: real;
      if km > 0 && consumption > 0.0 && price > 0.0 {
        liters := Litres(km, consumption);
        fuelCost := liters * price;
        assert CloseFuel(km, consumption, price) == (Litres(km, consumption), Litres(km, consumption) * price);
      } else {
        liters := 0.0;
        fuelCost := 0.0;
        assert (liters, fuelCost) == CloseFuel(km, consumption, price);
      }
      shifts := shifts[k := shifts[k].(isOpen := false, km := km, liters := liters, price := price, closedAt := Some(now))];
      var income := totals.nal + totals.card + totals.tips;
      var profit := income - fuelCost;
      r := Some(CloseSummary(liters, fuelCost, income, profit));
      assert r.value == Summary(totals, km, consumption, price);
      assert CloseStep(before, km, consumption, price, now) == Some((Snapshot(), r.value));
      if Wf(before) {
        CloseKeepsInvariants(before, km, consumption, price, now);
      }
    }

    /** The manual override: the ledger row, if present, set to the value. */
    method SetLedger(value: real)
      requires value >= 0.0
      modifies this
      ensures Snapshot() == OverrideDb(old(Snapshot()), value)
    {
      if ledger.Some? {
        ledger := Some(value);
      }
    }

    /** recalc_full_db: every order's derived columns recomputed in a loop,
        then the ledger row set (or inserted) to the sum of the deltas. */
    method Recalc()
      modifies this
      ensures Snapshot() == RecalcDb(old(Snapshot()))
      ensures Balanced(Snapshot())
      ensures old(Wf(Snapshot())) ==> Wf(Snapshot())
    {
      ghost var before := Snapshot();
      var i := 0;
      while i < |orders|
        invariant 0 <= i <= |orders| == |before.orders|
        invariant orders[..i] == RecalcOrders(before.orders[..i])
        invariant forall k | i <= k < |orders| :: orders[k] == before.orders[k]
        invariant shifts == before.shifts
      {
        var o := orders[i];
        var typ, commission, total, beznalAdded := SettleBlock(o.amount, o.tips, o.typ);
        var o' := o.(commission := commission, total := total, beznal := beznalAdded);
        assert o' == Resettle(before.orders[i]);
        RecalcOrdersStep(before.orders, i);
        orders := orders[i := o'];
        assert orders[..i + 1] == orders[..i] + [o'];
        i := i + 1;
      }
      assert orders == orders[..i] && before.orders == before.orders[..i];
      ledger := Some(SumBeznal(orders));
      RecalcSettles(before);
    }

    /** The import loop over the kept rows of a sheet: each row is counted
        as imported or as an error; an imported row finds or creates the
        closed shift of its date, inserts its order and moves the ledger. */
    method Import(hasAmountColumn: bool, rows: seq<Row>) returns (imported: nat, errors: nat)
      modifies this
      ensures ImportSheet(old(Snapshot()), hasAmountColumn, rows) == ImportState(Snapshot(), imported, errors)
      ensures old(Wf(Snapshot())) ==> Wf(Snapshot())
      ensures old(Wf(Snapshot()) && Balanced(Snapshot())) ==> Balanced(Snapshot())
    {
      ghost var before := Snapshot();
      imported, errors := 0, 0;
      if !hasAmountColumn {
        return;
      }
      var kept := KeptRows(rows);
      if kept == [] {
        return;
      }
      imported, errors := ImportLoop(kept);
      if Wf(before) {
        ImportKeepsInvariants(ImportState(before, 0, 0), kept);
      }
    }

    /** The loop over the kept rows, both counters from 0. */
    method ImportLoop(kept: seq<Row>) returns (imported: nat, errors: nat)
      modifies this
      ensures ImportRows(ImportState(old(Snapshot()), 0, 0), kept) == ImportState(Snapshot(), imported, errors)
    {
      ghost var before := Snapshot();
      imported, errors := 0, 0;
      var i := 0;
      while i < |kept|
        invariant 0 <= i <= |kept|
        invariant ImportRows(ImportState(before, 0, 0), kept[..i]) == ImportState(Snapshot(), imported, errors)
      {
        ghost var st := ImportState(Snapshot(), imported, errors);
        var row := kept[i];
        assert kept[..i + 1][..i] == kept[..i];
        assert ImportRows(ImportState(before, 0, 0), kept[..i + 1]) == ImportRow(st, row);
        ImportOne(row);
        if CheckRow(row).Accept? {
          ghost var a := CheckRow(row);
          assert ImportAccepted(st, a.amount, a.date, a.payment, a.tips).db
              == ImportAccepted(ImportState(st.db, 0, 0), a.amount, a.date, a.payment, a.tips).db;
          imported := imported + 1;
        } else {
          errors := errors + 1;
        }
        i := i + 1;
      }
      assert kept[..i] == kept;
    }

    /** The body of the import loop for one row, without the counters. */
    method ImportOne(row: Row)
      modifies this
      ensures !CheckRow(row).Accept? ==> Snapshot() == old(Snapshot())
      ensures CheckRow(row).Accept? ==>
                var a := CheckRow(row);
                Snapshot() == ImportAccepted(ImportState(old(Snapshot()), 0, 0), a.amount, a.date, a.payment, a.tips).db
    {
      var amount := SafeNumCell(row.amount, None);
      if amount.None? {
        return;
      }
      var date := SafeStrCell(row.date, "");
      if date == "" {
        return;
      }
      ghost var before := Snapshot();
      var p := PaymentAlias(row.typ);
      var tips := SafeNumCell(row.tips, Some(0.0)).value;
      assert CheckRow(row) == Accept(amount.value, date, p, tips);
      var sid := FindOrCreate(date);
      ghost var mid := Snapshot();
      assert (mid, sid) == FindOrCreateShift(before, date);
      var typ, commission, total, beznalAdded := SettleBlock(amount.value, tips, TypeName(p));
      var o := Order(|orders| + 1, sid, typ, amount.value, tips, commission, total, beznalAdded, None);
      assert o == ImportedOrder(mid, sid, amount.value, p, tips);
      InsertOrder(o);
    }

    /** The importer's lookup of the shift of a date, inserting a closed
        shift for the date when there is none; the result is its id. */
    method FindOrCreate(date: string) returns (sid: nat)
      modifies this
      ensures (Snapshot(), sid) == FindOrCreateShift(old(Snapshot()), date)
    {
      ghost var before := Snapshot();
      var found := FirstWithDate(shifts, date);
      if found.Some? {
        sid := shifts[found.value].id;
        assert FindOrCreateShift(before, date) == (before, sid);
      } else {
        sid := |shifts| + 1;
        var s := Shift(sid, date, 0, 0.0, 0.0, false, Some(date), Some(date));
        shifts := shifts + [s];
        assert FindOrCreateShift(before, date) == (before.(shifts := before.shifts + [s]), sid);
      }
    }

    /** reset_db as written: empty tables and no ledger row. */
    method Reset()
      modifies this
      ensures Snapshot() == ResetDb()
    {
      shifts := [];
      orders := [];
      ledger := None;
    }

    /** reset_db as evidently intended: empty tables and the ledger row at 0. */
    method ResetSeeded()
      modifies this
      ensures Snapshot() == ResetReseeded()
      ensures Wf(Snapshot()) && Balanced(Snapshot())
    {
      shifts := [];
      orders := [];
      ledger := Some(0.0);
    }
  }
}

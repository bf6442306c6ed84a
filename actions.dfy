/**
 * The main page's write paths as steps from one database state to the
 * next: opening a shift, validating and saving an order, closing the shift.
 * The Store class performs them in place; here they are stated as values,
 * together with the invariants they keep.
 */
module Actions {
  import opened Util
  import opened Text
  import opened Settlement
  import opened Tables
  import opened Fuel

  // ----- opening a shift -----

  /** The open-shift form is offered only while no shift is open; it inserts
      a shift with is_open = 1, the chosen date and the current time. The
      result is the new shift's id, or None when a shift is already open. */
  function OpenStep(db: Db, date: string, now: string): (r: (Db, Option<nat>))
    ensures OpenShiftIndex(db.shifts).Some? ==> r == (db, None)
    ensures OpenShiftIndex(db.shifts).None? ==>
              r.0 == db.(shifts := db.shifts + [Shift(|db.shifts| + 1, date, 0, 0.0, 0.0, true, Some(now), None)])
              && r.1 == Some(|db.shifts| + 1)
  {
    if OpenShiftIndex(db.shifts).Some? then (db, None)
    else
      var id := |db.shifts| + 1;
      (db.(shifts := db.shifts + [Shift(id, date, 0, 0.0, 0.0, true, Some(now), None)]), Some(id))
  }

  /** Opening keeps the invariants, and the new shift is then the open one. */
  lemma OpenKeepsInvariants(db: Db, date: string, now: string)
    requires Wf(db)
    ensures Wf(OpenStep(db, date, now).0)
    ensures Balanced(db) ==> Balanced(OpenStep(db, date, now).0)
    ensures OpenShiftIndex(OpenStep(db, date, now).0.shifts).Some?
    ensures OpenStep(db, date, now).1.Some? ==>
              OpenShiftIndex(OpenStep(db, date, now).0.shifts) == Some(|db.shifts|)
  {
    if OpenShiftIndex(db.shifts).None? {
      var s := OpenStep(db, date, now).0.shifts;
      assert s[|db.shifts|].isOpen;
      OpenShiftUnique(s, |db.shifts|);
    }
  }

  // ----- the order form -----

  /** Why the order form refused to save. */
  datatype FormError = NoOpenShift | AmountNotNumber | AmountNotPositive | TipsNotNumber

  /** float(s.replace(",", ".")): Python's float() strips the text itself. */
  function ReadNumber(s: string): (r: Option<real>)
    ensures AllSpace(s) ==> r.None?
    ensures (forall k | 0 <= k < |s| :: s[k] != ',') ==> r == PyFloat(s)
  {
    CommaToDotUnchanged(s);
    PyFloat(CommaToDot(s))
  }

  /** The validation of the order form: the amount must be a number and
      positive; blank tips are 0 and other tips must be a number. */
  function ReadOrderForm(amountText: string, tipsText: string): (r: Result<(real, real), FormError>)
    ensures r == Err(AmountNotNumber) <==> ReadNumber(amountText).None?
    ensures r == Err(AmountNotPositive) <==> ReadNumber(amountText).Some? && ReadNumber(amountText).value <= 0.0
    ensures r == Err(TipsNotNumber) <==>
              ReadNumber(amountText).Some? && ReadNumber(amountText).value > 0.0
              && !AllSpace(tipsText) && ReadNumber(tipsText).None?
    ensures r != Err(NoOpenShift)
    ensures r.Ok? ==> r.value.0 > 0.0 && Some(r.value.0) == ReadNumber(amountText)
    ensures r.Ok? && AllSpace(tipsText) ==> r.value.1 == 0.0
    ensures r.Ok? && !AllSpace(tipsText) ==> Some(r.value.1) == ReadNumber(tipsText)
  {
    match ReadNumber(amountText)
    case None => Err(AmountNotNumber)
    case Some(amount) =>
      if amount <= 0.0 then Err(AmountNotPositive)
      else if Strip(tipsText) == "" then Ok((amount, 0.0))
      else
        match ReadNumber(tipsText)
        case None => Err(TipsNotNumber)
        case Some(tips) => Ok((amount, tips))
  }

  /** The order row the page inserts for a validated form. */
  function NewOrder(db: Db, shiftId: nat, payment: string, amount: real, tips: real, time: string): (o: Order)
    ensures o.id == |db.orders| + 1 && o.shiftId == shiftId && o.amount == amount && o.tips == tips
    ensures o.typ == TypeName(PaymentOfType(payment)) && IsSettled(o)
  {
    var p := PaymentOfType(payment);
    var c := Settle(amount, tips, p);
    Order(|db.orders| + 1, shiftId, TypeName(p), amount, tips, c.commission, c.total, c.beznal, Some(time))
  }

  /** Saving an order: with a shift open and a valid form, the order is
      appended to the open shift and its delta is added to the ledger row. */
  function AddOrderStep(db: Db, amountText: string, payment: string, tipsText: string, time: string)
    : (r: Result<Db, FormError>)
    ensures OpenShiftIndex(db.shifts).None? <==> r == Err(NoOpenShift)
    ensures OpenShiftIndex(db.shifts).Some? && ReadOrderForm(amountText, tipsText).Err? ==>
              r == Err(ReadOrderForm(amountText, tipsText).error)
    ensures r.Ok? <==> OpenShiftIndex(db.shifts).Some? && ReadOrderForm(amountText, tipsText).Ok?
    ensures r.Ok? ==>
              var form := ReadOrderForm(amountText, tipsText).value;
              var sid := db.shifts[OpenShiftIndex(db.shifts).value].id;
              r.value == SaveOrder(db, NewOrder(db, sid, payment, form.0, form.1, time))
  {
    match OpenShiftIndex(db.shifts)
    case None => Err(NoOpenShift)
    case Some(k) =>
      match ReadOrderForm(amountText, tipsText)
      case Err(e) => Err(e)
      case Ok((amount, tips)) => Ok(SaveOrder(db, NewOrder(db, db.shifts[k].id, payment, amount, tips, time)))
  }

  /** A saved order lands in the open shift with the settlement of its
      amount and tips, and the ledger moves by exactly its delta. */
  lemma AddOrderEffect(db: Db, amountText: string, payment: string, tipsText: string, time: string)
    requires AddOrderStep(db, amountText, payment, tipsText, time).Ok?
    ensures var db' := AddOrderStep(db, amountText, payment, tipsText, time).value;
      var form := ReadOrderForm(amountText, tipsText).value;
      db'.shifts == db.shifts && |db'.orders| == |db.orders| + 1 && db'.orders[..|db.orders|] == db.orders
      && var o := db'.orders[|db.orders|];
      o.shiftId == db.shifts[OpenShiftIndex(db.shifts).value].id
      && (o.amount, o.tips) == form
      && Charges(o.commission, o.total, o.beznal) == Settle(form.0, form.1, PaymentOfType(payment))
      && db'.ledger == Adjust(db.ledger, o.beznal)
  {
    var db' := AddOrderStep(db, amountText, payment, tipsText, time).value;
    assert db'.orders[..|db.orders|] == db.orders;
  }

  /** Saving an order keeps the invariants, and a balanced ledger stays
      balanced. */
  lemma AddOrderKeepsInvariants(db: Db, amountText: string, payment: string, tipsText: string, time: string)
    requires Wf(db)
    requires AddOrderStep(db, amountText, payment, tipsText, time).Ok?
    ensures Wf(AddOrderStep(db, amountText, payment, tipsText, time).value)
    ensures Balanced(db) ==> Balanced(AddOrderStep(db, amountText, payment, tipsText, time).value)
  {
    var k := OpenShiftIndex(db.shifts).value;
    var form := ReadOrderForm(amountText, tipsText).value;
    var o := NewOrder(db, db.shifts[k].id, payment, form.0, form.1, time);
    assert o.typ == Nal || o.typ == Karta;
    SaveOrderKeepsInvariants(db, o);
  }

  /** An amount and tips written as decimals, with a comma or a full stop,
      are read as those numbers; blank tips are 0. */
  lemma FormReadsDecimals(aw: string, asep: char, af: string, tw: string, tsep: char, tf: string, blank: string)
    requires AllDigits(aw) && AllDigits(af) && |aw| > 0 && (asep == ',' || asep == '.')
    requires AllDigits(tw) && AllDigits(tf) && |tw| > 0 && (tsep == ',' || tsep == '.')
    requires DecimalValue(aw, af) > 0.0 && AllSpace(blank)
    ensures ReadOrderForm(aw + [asep] + af, tw + [tsep] + tf)
              == Ok((DecimalValue(aw, af), DecimalValue(tw, tf)))
    ensures ReadOrderForm(aw + [asep] + af, blank) == Ok((DecimalValue(aw, af), 0.0))
  {
    ReadDecimal(aw, asep, af);
    ReadDecimal(tw, tsep, tf);
  }

  lemma ReadDecimal(whole: string, sep: char, frac: string)
    requires AllDigits(whole) && AllDigits(frac) && |whole| > 0 && (sep == ',' || sep == '.')
    ensures ReadNumber(whole + [sep] + frac) == Some(DecimalValue(whole, frac))
    ensures !AllSpace(whole + [sep] + frac)
  {
    var s := whole + [sep] + frac;
    DecimalText(whole, sep, frac);
    assert CommaToDot(s) == whole + "." + frac;
    assert PyFloat(whole + "." + frac) == Some(DecimalValue(whole, frac));
  }

  /** A cash order whose amount text reads as x > 0, with blank tips, debits
      the cash commission x * (1 - 0.78) from the ledger. */
  lemma CashOrderDebits(db: Db, s: string, x: real, blank: string, time: string)
    requires OpenShiftIndex(db.shifts).Some? && db.ledger.Some? && AllSpace(blank)
    requires ReadNumber(s) == Some(x) && x > 0.0
    ensures AddOrderStep(db, s, Nal, blank, time).Ok?
    ensures AddOrderStep(db, s, Nal, blank, time).value.ledger.Some?
    ensures AddOrderStep(db, s, Nal, blank, time).value.ledger.value == db.ledger.value - x * (1.0 - 0.78)
  {
    var o := CashFormSaves(db, s, x, blank, time);
    SavedLedger(AddOrderStep(db, s, Nal, blank, time), db, o, x * (1.0 - 0.78));
  }

  /** The form saves the cash order of x without tips. */
  lemma CashFormSaves(db: Db, s: string, x: real, blank: string, time: string) returns (o: Order)
    requires OpenShiftIndex(db.shifts).Some? && AllSpace(blank)
    requires ReadNumber(s) == Some(x) && x > 0.0
    ensures AddOrderStep(db, s, Nal, blank, time) == Ok(SaveOrder(db, o))
    ensures o.beznal == -(x * (1.0 - 0.78))
  {
    assert ReadOrderForm(s, blank) == Ok((x, 0.0));
    var sid := db.shifts[OpenShiftIndex(db.shifts).value].id;
    o := NewOrder(db, sid, Nal, x, 0.0, time);
  }

  /** A step that saved an order whose delta is -fee debits fee from the
      ledger row. */
  lemma SavedLedger(r: Result<Db, FormError>, db: Db, o: Order, fee: real)
    requires r == Ok(SaveOrder(db, o)) && db.ledger.Some? && o.beznal == -fee
    ensures r.Ok? && r.value.ledger == Some(db.ledger.value - fee)
  {
  }

  /** A form with a whole-number amount and blank tips, such as "650" in
      cash, debits the cash commission from the ledger. */
  lemma WholeCashOrder(db: Db, n: nat, blank: string, time: string)
    requires OpenShiftIndex(db.shifts).Some? && db.ledger.Some? && n > 0 && AllSpace(blank)
    ensures AddOrderStep(db, NatToDigits(n), Nal, blank, time).Ok?
    ensures AddOrderStep(db, NatToDigits(n), Nal, blank, time).value.ledger.Some?
    ensures AddOrderStep(db, NatToDigits(n), Nal, blank, time).value.ledger.value
              == db.ledger.value - n as real * (1.0 - 0.78)
  {
    WholeText(n);
    CashOrderDebits(db, NatToDigits(n), n as real, blank, time);
  }

  // ----- closing the shift -----

  /** Closing the open shift: is_open = 0 and km, litres, the entered price
      and closed_at written on that shift only; the summary is computed from
      the shift's totals. None when no shift is open. */
  function CloseStep(db: Db, km: nat, consumption: real, price: real, now: string)
    : (r: Option<(Db, CloseSummary)>)
    ensures r.None? <==> OpenShiftIndex(db.shifts).None?
    ensures r.Some? ==> |r.value.0.shifts| == |db.shifts|
    ensures r.Some? ==>
              var k := OpenShiftIndex(db.shifts).value;
              var s := r.value.0.shifts[k];
              r.value.0.orders == db.orders && r.value.0.ledger == db.ledger
              && (forall j | 0 <= j < |db.shifts| && j != k :: r.value.0.shifts[j] == db.shifts[j])
              && !s.isOpen && s.id == db.shifts[k].id && s.date == db.shifts[k].date
              && s.openedAt == db.shifts[k].openedAt
              && s.km == km && s.price == price && s.closedAt == Some(now)
              && (s.liters, r.value.1.fuelCost) == CloseFuel(km, consumption, price)
              && r.value.1 == Summary(ShiftTotals(db.orders, db.shifts[k].id), km, consumption, price)
  {
    match OpenShiftIndex(db.shifts)
    case None => None
    case Some(k) =>
      var totals := ShiftTotals(db.orders, db.shifts[k].id);
      var (liters, cost) := CloseFuel(km, consumption, price);
      var closed := db.shifts[k].(isOpen := false, km := km, liters := liters, price := price, closedAt := Some(now));
      Some((db.(shifts := db.shifts[k := closed]), Summary(totals, km, consumption, price)))
  }

  /** Closing keeps the invariants and leaves no shift open. */
  lemma CloseKeepsInvariants(db: Db, km: nat, consumption: real, price: real, now: string)
    requires Wf(db) && CloseStep(db, km, consumption, price, now).Some?
    ensures Wf(CloseStep(db, km, consumption, price, now).value.0)
    ensures Balanced(db) ==> Balanced(CloseStep(db, km, consumption, price, now).value.0)
    ensures OpenShiftIndex(CloseStep(db, km, consumption, price, now).value.0.shifts).None?
  {
  }

  /** Closing with positive inputs at a time later than every other
      qualifying shift's closed_at makes the next suggestion exactly the
      consumption and price just entered. */
  lemma CloseThenSuggest(db: Db, km: nat, consumption: real, price: real, now: string)
    requires CloseStep(db, km, consumption, price, now).Some?
    requires km > 0 && consumption > 0.0 && price > 0.0
    requires forall j | 0 <= j < |db.shifts| && Qualifies(db.shifts[j]) ::
               ClosedBefore(db.shifts[j].closedAt, Some(now))
    ensures LastFuelParams(CloseStep(db, km, consumption, price, now).value.0.shifts) == (consumption, price)
  {
    var k := OpenShiftIndex(db.shifts).value;
    var shifts := CloseStep(db, km, consumption, price, now).value.0.shifts;
    assert Qualifies(shifts[k]);
    var m := Latest(shifts).value;
    LatestIsGreatest(shifts);
    assert m == k;
    ConsumptionRoundTrip(km, consumption, price);
  }
}

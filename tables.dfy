/**
 * The three tables of taxi.db as in-memory values: shifts, orders and the
 * single accumulated_beznal row of driver 1, with the queries the pages run
 * against them and the invariants every write path keeps.
 */
module Tables {
  import opened Util
  import opened Settlement

  /** A row of shifts. Ids are AUTOINCREMENT and never reused. */
  datatype Shift = Shift(
    id: nat,
    date: string,
    km: int,
    liters: real,
    price: real,
    isOpen: bool,
    openedAt: Option<string>,
    closedAt: Option<string>)

  /** A row of orders: the fare, the tips and the three derived columns. */
  datatype Order = Order(
    id: nat,
    shiftId: nat,
    typ: string,
    amount: real,
    tips: real,
    commission: real,
    total: real,
    beznal: real,
    time: Option<string>)

  /** The database. ledger is the total_amount of driver 1's
      accumulated_beznal row, None when that row does not exist. */
  datatype Db = Db(shifts: seq<Shift>, orders: seq<Order>, ledger: Option<real>)

  // ----- the ledger row -----

  /** get_accumulated_beznal: the stored amount, 0.0 when the row is missing. */
  function LedgerRead(ledger: Option<real>): (v: real)
    ensures ledger.Some? ==> v == ledger.value
    ensures ledger.None? ==> v == 0.0
  {
    match ledger
    case None => 0.0
    case Some(x) => x
  }

  /** UPDATE ... SET total_amount = total_amount + delta WHERE driver_id = 1:
      adds to the row when it exists and touches nothing otherwise. */
  function Adjust(ledger: Option<real>, delta: real): (r: Option<real>)
    ensures r.Some? <==> ledger.Some?
    ensures r.Some? ==> r.value == ledger.value + delta
  {
    match ledger
    case None => None
    case Some(x) => Some(x + delta)
  }

  // ----- sums over orders -----

  function Beznal(o: Order): real { o.beznal }
  function Tips(o: Order): real { o.tips }
  function Total(o: Order): real { o.total }
  /** SUM(total - tips) of one type, as GROUP BY type collects it. */
  function NetCash(o: Order): real { if o.typ == Nal then o.total - o.tips else 0.0 }
  function NetCard(o: Order): real { if o.typ == Karta then o.total - o.tips else 0.0 }

  /** The sum of f over the orders; an empty sum is 0 (SUM(...) or 0). */
  function Sum(os: seq<Order>, f: Order -> real): (s: real)
    ensures os == [] ==> s == 0.0
  {
    if os == [] then 0.0 else Sum(os[..|os| - 1], f) + f(os[|os| - 1])
  }

  lemma {:induction false} SumAppend(a: seq<Order>, b: seq<Order>, f: Order -> real)
    ensures Sum(a + b, f) == Sum(a, f) + Sum(b, f)
    decreases |b|
  {
    if b == [] {
      assert a + b == a;
    } else {
      var b' := b[..|b| - 1];
      assert (a + b)[..|a + b| - 1] == a + b';
      SumAppend(a, b', f);
    }
  }

  lemma SumSnoc(a: seq<Order>, o: Order, f: Order -> real)
    ensures Sum(a + [o], f) == Sum(a, f) + f(o)
  {
    assert (a + [o])[..|a|] == a;
  }

  /** The ledger sum of a sequence of orders. */
  function SumBeznal(os: seq<Order>): real { Sum(os, Beznal) }

  // ----- queries -----

  /** get_open_shift: the first shift with is_open = 1, by rowid. */
  function OpenShiftIndex(shifts: seq<Shift>): (r: Option<nat>)
    ensures r.Some? ==> (r.value < |shifts| && shifts[r.value].isOpen
                         && forall k | 0 <= k < r.value :: !shifts[k].isOpen)
    ensures r.None? ==> forall k | 0 <= k < |shifts| :: !shifts[k].isOpen
  {
    OpenShiftFrom(shifts, 0)
  }

  /** The first open shift at or after index i. */
  function OpenShiftFrom(shifts: seq<Shift>, i: nat): (r: Option<nat>)
    requires i <= |shifts|
    ensures r.Some? ==> (i <= r.value < |shifts| && shifts[r.value].isOpen
                         && forall k | i <= k < r.value :: !shifts[k].isOpen)
    ensures r.None? ==> forall k | i <= k < |shifts| :: !shifts[k].isOpen
    decreases |shifts| - i
  {
    if i == |shifts| then None
    else if shifts[i].isOpen then Some(i)
    else OpenShiftFrom(shifts, i + 1)
  }

  /** SELECT id FROM shifts WHERE date = ?: the first shift with exactly that date. */
  function FirstWithDate(shifts: seq<Shift>, date: string): (r: Option<nat>)
    ensures r.Some? ==> (r.value < |shifts| && shifts[r.value].date == date
                         && forall k | 0 <= k < r.value :: shifts[k].date != date)
    ensures r.None? ==> forall k | 0 <= k < |shifts| :: shifts[k].date != date
  {
    FirstWithDateFrom(shifts, date, 0)
  }

  /** The first shift with the date at or after index i. */
  function FirstWithDateFrom(shifts: seq<Shift>, date: string, i: nat): (r: Option<nat>)
    requires i <= |shifts|
    ensures r.Some? ==> (i <= r.value < |shifts| && shifts[r.value].date == date
                         && forall k | i <= k < r.value :: shifts[k].date != date)
    ensures r.None? ==> forall k | i <= k < |shifts| :: shifts[k].date != date
    decreases |shifts| - i
  {
    if i == |shifts| then None
    else if shifts[i].date == date then Some(i)
    else FirstWithDateFrom(shifts, date, i + 1)
  }

  /** The orders of one shift, in id order. */
  function OrdersOf(os: seq<Order>, sid: nat): (r: seq<Order>)
    ensures |r| <= |os|
    ensures forall k | 0 <= k < |r| :: r[k].shiftId == sid && r[k] in os
  {
    if os == [] then []
    else
      var init := OrdersOf(os[..|os| - 1], sid);
      var o := os[|os| - 1];
      if o.shiftId == sid then init + [o] else init
  }

  lemma {:induction false} OrdersOfAppend(a: seq<Order>, b: seq<Order>, sid: nat)
    ensures OrdersOf(a + b, sid) == OrdersOf(a, sid) + OrdersOf(b, sid)
    decreases |b|
  {
    if b == [] {
      assert a + b == a;
    } else {
      var b' := b[..|b| - 1];
      assert (a + b)[..|a + b| - 1] == a + b';
      OrdersOfAppend(a, b', sid);
    }
  }

  /** An order is in OrdersOf exactly when it belongs to the shift. */
  lemma {:induction false} OrdersOfMembers(os: seq<Order>, sid: nat, o: Order)
    ensures o in OrdersOf(os, sid) <==> o in os && o.shiftId == sid
  {
    if os != [] {
      OrdersOfMembers(os[..|os| - 1], sid, o);
      assert os == os[..|os| - 1] + [os[|os| - 1]];
    }
  }

  /** get_shift_totals: per type the sum of total - tips, then the tips and
      the off-cash change of the shift; missing sums are 0. */
  datatype Totals = Totals(nal: real, card: real, tips: real, beznal: real)

  function TotalsOf(os: seq<Order>): Totals {
    Totals(Sum(os, NetCash), Sum(os, NetCard), Sum(os, Tips), Sum(os, Beznal))
  }

  function ShiftTotals(os: seq<Order>, sid: nat): (t: Totals)
    ensures OrdersOf(os, sid) == [] ==> t == Totals(0.0, 0.0, 0.0, 0.0)
  {
    TotalsOf(OrdersOf(os, sid))
  }

  lemma {:induction false} TotalsOfAppend(a: seq<Order>, b: seq<Order>)
    ensures TotalsOf(a + b).nal == TotalsOf(a).nal + TotalsOf(b).nal
    ensures TotalsOf(a + b).card == TotalsOf(a).card + TotalsOf(b).card
    ensures TotalsOf(a + b).tips == TotalsOf(a).tips + TotalsOf(b).tips
    ensures TotalsOf(a + b).beznal == TotalsOf(a).beznal + TotalsOf(b).beznal
  {
    SumAppend(a, b, NetCash);
    SumAppend(a, b, NetCard);
    SumAppend(a, b, Tips);
    SumAppend(a, b, Beznal);
  }

  // ----- invariants -----

  /** The derived columns of an order are its settlement. */
  predicate IsSettled(o: Order) {
    Charges(o.commission, o.total, o.beznal) == Settle(o.amount, o.tips, PaymentOfType(o.typ))
  }

  predicate AllSettled(os: seq<Order>) {
    forall k | 0 <= k < |os| :: IsSettled(os[k])
  }

  predicate KnownTypes(os: seq<Order>) {
    forall k | 0 <= k < |os| :: os[k].typ == Nal || os[k].typ == Karta
  }

  predicate AtMostOneOpen(shifts: seq<Shift>) {
    forall i, j | 0 <= i < |shifts| && 0 <= j < |shifts| :: shifts[i].isOpen && shifts[j].isOpen ==> i == j
  }

  predicate ShiftIds(shifts: seq<Shift>) {
    forall k | 0 <= k < |shifts| :: shifts[k].id == k + 1
  }

  predicate OrderIds(os: seq<Order>) {
    forall k | 0 <= k < |os| :: os[k].id == k + 1
  }

  /** Every order refers to an existing shift. */
  predicate OrdersInShifts(os: seq<Order>, n: nat) {
    forall k | 0 <= k < |os| :: 1 <= os[k].shiftId <= n
  }

  /** The shape every write path of the program keeps. */
  predicate Wf(db: Db) {
    ShiftIds(db.shifts) && OrderIds(db.orders) && OrdersInShifts(db.orders, |db.shifts|)
    && AtMostOneOpen(db.shifts) && KnownTypes(db.orders) && AllSettled(db.orders)
  }

  /** The ledger row exists and holds the sum of the orders' deltas. */
  predicate Balanced(db: Db) {
    db.ledger == Some(SumBeznal(db.orders))
  }

  /** INSERT INTO orders, then, when the order's delta is not zero,
      UPDATE accumulated_beznal by it: the step both the order form and the
      importers take for each order. */
  function SaveOrder(db: Db, o: Order): (r: Db)
    ensures r.shifts == db.shifts && r.orders == db.orders + [o]
    ensures r.ledger == Adjust(db.ledger, o.beznal)
  {
    Db(db.shifts, db.orders + [o], if o.beznal != 0.0 then Adjust(db.ledger, o.beznal) else db.ledger)
  }

  /** A well-formed new order keeps the database well-formed, and the ledger
      sum follows the delta. */
  lemma SaveOrderKeepsInvariants(db: Db, o: Order)
    requires Wf(db)
    requires o.id == |db.orders| + 1 && 1 <= o.shiftId <= |db.shifts|
    requires (o.typ == Nal || o.typ == Karta) && IsSettled(o)
    ensures Wf(SaveOrder(db, o))
    ensures Balanced(db) ==> Balanced(SaveOrder(db, o))
  {
    SumSnoc(db.orders, o, Beznal);
  }

  /** At most one open shift means the open shift, if any, is the only one. */
  lemma OpenShiftUnique(shifts: seq<Shift>, k: nat)
    requires AtMostOneOpen(shifts) && k < |shifts| && shifts[k].isOpen
    ensures OpenShiftIndex(shifts) == Some(k)
  {
  }

  /** Over settled orders of the two known types, the shift's off-cash
      change is the card payout less the commission of the cash fares. */
  lemma {:induction false} BeznalIdentity(os: seq<Order>)
    requires AllSettled(os) && KnownTypes(os)
    ensures TotalsOf(os).beznal == TotalsOf(os).card - (1.0 - 0.78) * TotalsOf(os).nal
  {
    if os != [] {
      var init, o := os[..|os| - 1], os[|os| - 1];
      assert os == init + [o];
      BeznalIdentity(init);
      TotalsOfAppend(init, [o]);
      assert IsSettled(o);
    }
  }

  /** Over orders of the two known types, cash plus card plus tips is what the
      driver was paid in total. */
  lemma {:induction false} IncomeIsTotal(os: seq<Order>)
    requires KnownTypes(os)
    ensures TotalsOf(os).nal + TotalsOf(os).card + TotalsOf(os).tips == Sum(os, Total)
  {
    if os != [] {
      var init, o := os[..|os| - 1], os[|os| - 1];
      assert os == init + [o];
      assert init == os[..|os| - 1];
      IncomeIsTotal(init);
      TotalsOfAppend(init, [o]);
      assert Sum([o], Total) == o.total;
      SumAppend(init, [o], Total);
    }
  }

  lemma KnownTypesOf(os: seq<Order>, sid: nat)
    requires KnownTypes(os)
    ensures KnownTypes(OrdersOf(os, sid))
  {
    var r := OrdersOf(os, sid);
    forall k | 0 <= k < |r| ensures r[k].typ == Nal || r[k].typ == Karta {
      assert r[k] in os;
    }
  }

  lemma AllSettledOf(os: seq<Order>, sid: nat)
    requires AllSettled(os)
    ensures AllSettled(OrdersOf(os, sid))
  {
    var r := OrdersOf(os, sid);
    forall k | 0 <= k < |r| ensures IsSettled(r[k]) {
      assert r[k] in os;
    }
  }

  /** The shift-level identity, as the main page shows it. */
  lemma ShiftBeznalIdentity(db: Db, sid: nat)
    requires Wf(db)
    ensures var t := ShiftTotals(db.orders, sid);
      t.beznal == t.card - (1.0 - 0.78) * t.nal
      && t.nal + t.card + t.tips == Sum(OrdersOf(db.orders, sid), Total)
  {
    KnownTypesOf(db.orders, sid);
    AllSettledOf(db.orders, sid);
    BeznalIdentity(OrdersOf(db.orders, sid));
    IncomeIsTotal(OrdersOf(db.orders, sid));
  }
}

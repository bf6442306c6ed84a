/**
 * Fuel on the main page: what closing a shift computes from the kilometres,
 * the consumption and the petrol price, and which consumption and price the
 * close form suggests next time (get_last_fuel_params).
 */
module Fuel {
  import opened Util
  import opened Text
  import opened Tables

  /** What closing a shift reports: litres, petrol cost, income and profit. */
  datatype CloseSummary = CloseSummary(liters: real, fuelCost: real, income: real, profit: real)

  /** The litres and cost of the shift: consumption per 100 km over the
      distance, priced per litre, when all three inputs are positive, and
      nothing otherwise. */
  function CloseFuel(km: int, consumption: real, price: real): (r: (real, real))
    ensures km > 0 && consumption > 0.0 && price > 0.0 ==>
              r.0 * 100.0 == km as real * consumption && r.1 == r.0 * price && r.0 > 0.0 && r.1 > 0.0
    ensures !(km > 0 && consumption > 0.0 && price > 0.0) ==> r == (0.0, 0.0)
  {
    if km > 0 && consumption > 0.0 && price > 0.0 then
      var liters := Litres(km, consumption);
      (liters, liters * price)
    else
      (0.0, 0.0)
  }

  function Litres(km: int, consumption: real): (liters: real)
    requires km > 0 && consumption > 0.0
    ensures liters * 100.0 == km as real * consumption && liters > 0.0
  {
    (km as real / 100.0) * consumption
  }

  /** The close summary: income is cash plus card plus tips of the shift,
      and profit is income less the petrol. */
  function Summary(t: Totals, km: int, consumption: real, price: real): (s: CloseSummary)
    ensures s.income == t.nal + t.card + t.tips
    ensures s.profit == s.income - s.fuelCost
    ensures (s.liters, s.fuelCost) == CloseFuel(km, consumption, price)
  {
    var (liters, cost) := CloseFuel(km, consumption, price);
    var income := t.nal + t.card + t.tips;
    CloseSummary(liters, cost, income, income - cost)
  }

  /** Example: 200 km at 8 l/100 km and 55 per litre after a shift that took
      650 in cash, 750 by card and 50 in tips. */
  lemma CloseExample()
    ensures Summary(Totals(650.0, 750.0, 50.0, 607.0), 200, 8.0, 55.0)
      == CloseSummary(16.0, 880.0, 1450.0, 570.0)
  {
    assert Litres(200, 8.0) == 16.0;
  }

  // ----- get_last_fuel_params -----

  /** The WHERE clause: closed, with positive km, litres and price. */
  predicate Qualifies(s: Shift) {
    !s.isOpen && s.km > 0 && s.liters > 0.0 && s.price > 0.0
  }

  /** closed_at in ascending SQLite order: NULL first, then text by code point. */
  predicate ClosedBefore(a: Option<string>, b: Option<string>) {
    match (a, b)
    case (None, None) => false
    case (None, Some(_)) => true
    case (Some(_), None) => false
    case (Some(x), Some(y)) => StrLess(x, y)
  }

  /** The order of ORDER BY closed_at, id, ascending. */
  predicate KeyLess(a: Shift, b: Shift) {
    ClosedBefore(a.closedAt, b.closedAt) || (a.closedAt == b.closedAt && a.id < b.id)
  }

  lemma KeyLessIrreflexive(a: Shift)
    ensures !KeyLess(a, a)
  {
    if a.closedAt.Some? {
      StrLessIrreflexive(a.closedAt.value);
    }
  }

  lemma KeyLessTransitive(a: Shift, b: Shift, c: Shift)
    requires KeyLess(a, b) && KeyLess(b, c)
    ensures KeyLess(a, c)
  {
    if a.closedAt.Some? && b.closedAt.Some? && c.closedAt.Some?
      && StrLess(a.closedAt.value, b.closedAt.value) && StrLess(b.closedAt.value, c.closedAt.value)
    {
      StrLessTransitive(a.closedAt.value, b.closedAt.value, c.closedAt.value);
    }
  }

  lemma KeyLessTotal(a: Shift, b: Shift)
    requires a.id != b.id
    ensures KeyLess(a, b) || KeyLess(b, a)
  {
    if a.closedAt.Some? && b.closedAt.Some? {
      StrLessTotal(a.closedAt.value, b.closedAt.value);
    }
  }

  /** The row LIMIT 1 returns under ORDER BY closed_at DESC, id DESC: the
      index of the qualifying shift with the greatest key, or None. */
  function Latest(shifts: seq<Shift>): (r: Option<nat>)
    ensures r.Some? ==> r.value < |shifts| && Qualifies(shifts[r.value])
    ensures r.None? <==> forall k | 0 <= k < |shifts| :: !Qualifies(shifts[k])
  {
    if shifts == [] then None
    else
      var r := Latest(shifts[..|shifts| - 1]);
      var last := shifts[|shifts| - 1];
      if Qualifies(last) && (r.None? || KeyLess(shifts[r.value], last)) then Some(|shifts| - 1)
      else r
  }

  /** No qualifying shift comes after the one Latest picks. */
  lemma {:induction false} LatestIsGreatest(shifts: seq<Shift>)
    requires Latest(shifts).Some?
    ensures forall k | 0 <= k < |shifts| && Qualifies(shifts[k]) ::
              !KeyLess(shifts[Latest(shifts).value], shifts[k])
  {
    var init := shifts[..|shifts| - 1];
    var last := shifts[|shifts| - 1];
    var r := Latest(init);
    var m := Latest(shifts).value;
    if r.Some? {
      LatestIsGreatest(init);
    }
    forall k | 0 <= k < |shifts| && Qualifies(shifts[k]) ensures !KeyLess(shifts[m], shifts[k]) {
      if k == m {
        KeyLessIrreflexive(shifts[k]);
      } else if m == |shifts| - 1 {
        assert shifts[k] == init[k];
        if KeyLess(last, shifts[k]) {
          KeyLessTransitive(shifts[r.value], last, shifts[k]);
        }
      } else if k < |shifts| - 1 {
        assert shifts[k] == init[k];
      }
    }
  }

  /** (fuel_liters / km) * 100 if km > 0 else 8.0 */
  function ConsumptionOf(s: Shift): real {
    if s.km > 0 then s.liters / s.km as real * 100.0 else 8.0
  }

  /** get_last_fuel_params: the consumption and price of the latest
      qualifying shift, or 8.0 l/100 km and 55.0 per litre when there is
      none; a zero value falls back to its default too. */
  function LastFuelParams(shifts: seq<Shift>): (r: (real, real))
    ensures Latest(shifts).None? ==> r == (8.0, 55.0)
    ensures Latest(shifts).Some? ==>
              r == (ConsumptionOf(shifts[Latest(shifts).value]), shifts[Latest(shifts).value].price)
    ensures r.0 > 0.0 && r.1 > 0.0
  {
    match Latest(shifts)
    case None => (8.0, 55.0)
    case Some(k) =>
      var consumption := ConsumptionOf(shifts[k]);
      var price := shifts[k].price;
      (if consumption == 0.0 then 8.0 else consumption, if price == 0.0 then 55.0 else price)
  }

  /** Dividing the stored litres by the kilometres gives back the
      consumption the shift was closed with. */
  lemma ConsumptionRoundTrip(km: int, consumption: real, price: real)
    requires km > 0 && consumption > 0.0 && price > 0.0
    ensures CloseFuel(km, consumption, price).0 / km as real * 100.0 == consumption
  {
    var liters := CloseFuel(km, consumption, price).0;
    var k := km as real;
    assert liters * 100.0 == k * consumption;
    calc {
      liters / k * 100.0;
      (liters * 100.0) / k;
      (k * consumption) / k;
      consumption;
    }
  }
}

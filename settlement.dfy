/**
 * The cash/card settlement of one fare: how much commission is withheld,
 * what the driver is paid, and how the accumulated off-cash ("безнал")
 * balance moves. The same arithmetic is written out inline at every write
 * path of the program (order form, recalculation, both importers); here it
 * is defined once, and SettleBlock shows the inline form agrees with it.
 */
module Settlement {

  // The rates rate_nal = 0.78 (the share of a cash fare the driver keeps)
  // and rate_card = 0.75 (the share of a card fare the driver is paid) are
  // written as literals, so that every product with them is linear.

  /** The two order types stored in orders.type. */
  const Nal: string := "нал"
  const Karta: string := "карта"

  datatype Payment = Cash | Card

  /** How the recalculation reads a stored type: anything but "нал" is card. */
  function PaymentOfType(typ: string): (p: Payment)
    ensures p == Cash <==> typ == Nal
  {
    if typ == Nal then Cash else Card
  }

  /** The type string written for a payment. */
  function TypeName(p: Payment): (typ: string)
    ensures typ == Nal || typ == Karta
    ensures PaymentOfType(typ) == p
  {
    match p
    case Cash => Nal
    case Card => Karta
  }

  /** The derived columns of an order row. */
  datatype Charges = Charges(commission: real, total: real, beznal: real)

  /** final_wo_tips: what the driver earns from the fare before tips. */
  function Payout(amount: real, p: Payment): real {
    match p
    case Cash => amount
    case Card => amount * 0.75
  }

  /** The settlement of a fare of the given amount with the given tips.
      The driver receives the pre-tip payout plus the tips; a cash fare is
      held in hand, so the commission is debited from the off-cash balance;
      a card fare is collected by the platform, so the payout is credited to it. */
  function Settle(amount: real, tips: real, p: Payment): (c: Charges)
    ensures c.total - tips == Payout(amount, p)
    ensures p == Cash ==> c.commission == amount * (1.0 - 0.78) && c.beznal == -c.commission
    ensures p == Card ==> c.commission + c.beznal == amount && c.beznal == amount * 0.75
  {
    match p
    case Cash =>
      var commission := amount * (1.0 - 0.78);
      Charges(commission, amount + tips, -commission)
    case Card =>
      var payout := amount * 0.75;
      Charges(amount - payout, payout + tips, payout)
  }

  /** Tips enter only the total, one for one: commission and off-cash delta
      do not depend on them. */
  lemma TipsNeverCommissioned(amount: real, tips1: real, tips2: real, p: Payment)
    ensures Settle(amount, tips1, p).commission == Settle(amount, tips2, p).commission
    ensures Settle(amount, tips1, p).beznal == Settle(amount, tips2, p).beznal
    ensures Settle(amount, tips1, p).total - Settle(amount, tips2, p).total == tips1 - tips2
  {
  }

  /** For a positive fare the commission is a proper part of it, a cash
      fare debits the off-cash balance and a card fare credits it. */
  lemma SettleSigns(amount: real, tips: real, p: Payment)
    requires amount > 0.0
    ensures 0.0 < Settle(amount, tips, p).commission < amount
    ensures p == Cash ==> Settle(amount, tips, p).beznal < 0.0
    ensures p == Card ==> Settle(amount, tips, p).beznal > 0.0
    ensures Settle(amount, tips, p).total - tips <= amount
  {
  }

  /** Splitting a fare into two parts splits every derived column. */
  lemma SettleAdditive(a1: real, t1: real, a2: real, t2: real, p: Payment)
    ensures var s1, s2, s := Settle(a1, t1, p), Settle(a2, t2, p), Settle(a1 + a2, t1 + t2, p);
      s.commission == s1.commission + s2.commission && s.total == s1.total + s2.total
      && s.beznal == s1.beznal + s2.beznal
  {
  }

  /** A cash fare of 650 without tips. */
  lemma CashExample()
    ensures Settle(650.0, 0.0, Cash) == Charges(143.0, 650.0, -143.0)
  {
  }

  /** A card fare of 1000 with 50 in tips. */
  lemma CardExample()
    ensures Settle(1000.0, 50.0, Card) == Charges(250.0, 800.0, 750.0)
  {
  }

  /** The settlement block as the program writes it at each write path:
      a branch on the type that assigns typ, final_wo_tips, commission,
      total and beznal_added. Its outputs are exactly Settle's. */
  method SettleBlock(amount: real, tips: real, payment: string)
    returns (typ: string, commission: real, total: real, beznalAdded: real)
    ensures typ == TypeName(PaymentOfType(payment))
    ensures Charges(commission, total, beznalAdded) == Settle(amount, tips, PaymentOfType(payment))
  {
    var finalWoTips: real;
    if payment == Nal {
      typ := Nal;
      finalWoTips := amount;
      commission := amount * (1.0 - 0.78);
      total := amount + tips;
      beznalAdded := -commission;
    } else {
      typ := Karta;
      finalWoTips := amount * 0.75;
      commission := amount - finalWoTips;
      total := finalWoTips + tips;
      beznalAdded := finalWoTips;
    }
  }
}

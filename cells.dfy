/**
 * Reading spreadsheet cells during import (pages/Admin.py): text cells,
 * numeric cells with a decimal comma, and the payment-type aliases.
 */
module Cells {
  import opened Util
  import opened Text
  import opened Settlement

  /** A cell as the importer sees it: None for a missing column, None or NaN;
      otherwise the text str(value) of the cell. */
  type Cell = Option<string>

  /** safe_str_cell: the stripped text of the cell, or the default when the
      cell is empty or only whitespace. */
  function SafeStrCell(v: Cell, default: string): (r: string)
    ensures v.None? || AllSpace(v.value) ==> r == default
    ensures v.Some? && !AllSpace(v.value) ==> r == Strip(v.value) && r != "" && IsStripped(r)
  {
    if v.None? then default
    else
      var s := Strip(v.value);
      if s != "" then s else default
  }

  /** safe_num_cell: the cell read as a number with ',' as the decimal point;
      the default when the cell is empty, blank or not a number. */
  function SafeNumCell(v: Cell, default: Option<real>): (r: Option<real>)
    ensures v.None? || AllSpace(v.value) ==> r == default
    ensures r == default || (v.Some? && r == ParseDecimal(CommaToDot(Strip(v.value))) && r.Some?)
    ensures v.Some? && ParseDecimal(CommaToDot(Strip(v.value))).Some? ==> r == ParseDecimal(CommaToDot(Strip(v.value)))
    ensures default.Some? ==> r.Some?
  {
    if v.None? then default
    else
      var s := CommaToDot(Strip(v.value));
      if s == "" then default
      else
        match ParseDecimal(s)
        case Some(x) => Some(x)
        case None => default
  }

  /** A cell holding digits, a comma and digits is read as that decimal number,
      exactly as if it had a full stop. */
  lemma DecimalComma(whole: string, frac: string, default: Option<real>)
    requires AllDigits(whole) && AllDigits(frac) && |whole| > 0
    ensures SafeNumCell(Some(whole + "," + frac), default) == Some(DecimalValue(whole, frac))
    ensures SafeNumCell(Some(whole + "." + frac), default) == Some(DecimalValue(whole, frac))
  {
    DecimalCell(whole, ',', frac, default);
    DecimalCell(whole, '.', frac, default);
    assert whole + "," + frac == whole + [','] + frac;
    assert whole + "." + frac == whole + ['.'] + frac;
  }

  lemma DecimalCell(whole: string, sep: char, frac: string, default: Option<real>)
    requires AllDigits(whole) && AllDigits(frac) && |whole| > 0
    requires sep == ',' || sep == '.'
    ensures SafeNumCell(Some(whole + [sep] + frac), default) == Some(DecimalValue(whole, frac))
  {
    DecimalText(whole, sep, frac);
    CleanNumberCell(whole + [sep] + frac, whole + "." + frac, default);
  }

  /** A cell with nothing to strip whose dotted form float() reads is read as
      that number. */
  lemma CleanNumberCell(t: string, dotted: string, default: Option<real>)
    requires Strip(t) == t && t != [] && CommaToDot(t) == dotted && ParseDecimal(dotted).Some?
    ensures SafeNumCell(Some(t), default) == ParseDecimal(dotted)
  {
  }

  /** A cell holding a whole number in decimal is read as that number. */
  lemma WholeNumberCell(n: nat, default: Option<real>)
    ensures SafeNumCell(Some(NatToDigits(n)), default) == Some(n as real)
  {
    WholeText(n);
  }

  /** The spellings of the payment type that mean card. */
  const CardAliases: seq<string> := ["безнал", "card", "карта"]

  /** The payment type of an imported row: the stripped, lower-cased cell is
      card when it is one of the aliases; anything else, a missing or blank
      cell included, is cash. */
  function PaymentAlias(v: Cell): (p: Payment)
    ensures p == Card <==> Lower(SafeStrCell(v, Nal)) in CardAliases
  {
    if Lower(SafeStrCell(v, Nal)) in CardAliases then Card else Cash
  }

  lemma LowerNal()
    ensures Lower(Nal) == Nal
  {
    var l := Lower(Nal);
    assert l[0] == Nal[0] && l[1] == Nal[1] && l[2] == Nal[2];
  }

  lemma NalIsNotCardAlias()
    ensures Nal !in CardAliases
  {
    assert Nal != CardAliases[0] by { assert |Nal| != |CardAliases[0]|; }
    assert Nal != CardAliases[1] by { assert Nal[0] != CardAliases[1][0]; }
    assert Nal != CardAliases[2] by { assert |Nal| != |CardAliases[2]|; }
  }

  /** A missing or blank type cell is read as cash. */
  lemma MissingTypeIsCash(v: Cell)
    requires v.None? || AllSpace(v.value)
    ensures PaymentAlias(v) == Cash
  {
    LowerNal();
    NalIsNotCardAlias();
  }

  lemma LowerCharKeepsSpace(c: char)
    ensures IsSpace(LowerChar(c)) <==> IsSpace(c)
  {
  }

  /** Lower-casing keeps whitespace where it is, so it commutes with strip(). */
  lemma {:induction false} LowerSpacesFrom(s: string, i: nat)
    requires i <= |s|
    ensures SpacesFrom(Lower(s), i) == SpacesFrom(s, i)
    decreases |s| - i
  {
    if i < |s| {
      LowerCharKeepsSpace(s[i]);
      LowerSpacesFrom(s, i + 1);
    }
  }

  lemma {:induction false} LowerSpacesBefore(s: string, j: nat)
    requires j <= |s|
    ensures SpacesBefore(Lower(s), j) == SpacesBefore(s, j)
  {
    if j > 0 {
      LowerCharKeepsSpace(s[j - 1]);
      LowerSpacesBefore(s, j - 1);
    }
  }

  lemma LowerTrimLeft(s: string)
    ensures Lower(TrimLeft(s)) == TrimLeft(Lower(s))
  {
    LowerSpacesFrom(s, 0);
  }

  lemma LowerTrimRight(s: string)
    ensures Lower(TrimRight(s)) == TrimRight(Lower(s))
  {
    LowerSpacesBefore(s, |s|);
    var j := SpacesBefore(s, |s|);
    var l, r := Lower(s[..j]), Lower(s)[..j];
    forall k | 0 <= k < |l| ensures l[k] == r[k] {
      assert s[..j][k] == s[k];
    }
  }

  /** The payment alias does not depend on letter case. */
  lemma AliasIgnoresCase(s: string)
    ensures PaymentAlias(Some(Lower(s))) == PaymentAlias(Some(s))
  {
    LowerStrip(s);
    if AllSpace(s) {
      BlankLower(s);
    } else {
      FilledLower(s);
    }
  }

  /** A blank cell stays blank when lower-cased: both read as the default. */
  lemma BlankLower(s: string)
    requires AllSpace(s) && Strip(Lower(s)) == Lower(Strip(s))
    ensures SafeStrCell(Some(Lower(s)), Nal) == SafeStrCell(Some(s), Nal)
  {
    assert Strip(s) == [];
    assert Strip(Lower(s)) == [];
  }

  /** A filled cell read after lower-casing is the lower case of the cell
      read, and so has the same lower case. */
  lemma FilledLower(s: string)
    requires !AllSpace(s) && Strip(Lower(s)) == Lower(Strip(s))
    ensures Lower(SafeStrCell(Some(Lower(s)), Nal)) == Lower(SafeStrCell(Some(s), Nal))
  {
    var t := Strip(s);
    assert t != [];
    assert Strip(Lower(s)) != [];
    assert SafeStrCell(Some(Lower(s)), Nal) == Lower(t);
    LowerIdempotent(t);
  }

  /** Lower-casing commutes with strip(). */
  lemma LowerStrip(s: string)
    ensures Strip(Lower(s)) == Lower(Strip(s))
  {
    LowerTrimLeft(s);
    LowerTrimRight(TrimLeft(s));
  }

  /** For text that is already stripped, the alias is read from its lower case. */
  lemma AliasOfStripped(s: string)
    requires IsStripped(s) && s != ""
    ensures PaymentAlias(Some(s)) == if Lower(s) in CardAliases then Card else Cash
  {
    StripOfStripped(s);
    assert !AllSpace(s) by { assert !IsSpace(s[0]); }
    assert SafeStrCell(Some(s), Nal) == s;
  }

  /** "card", in any case, and "Безнал" are card. */
  lemma CardSpellings()
    ensures PaymentAlias(Some("card")) == Card
    ensures PaymentAlias(Some("CARD")) == Card
    ensures PaymentAlias(Some("Безнал")) == Card
  {
    CardIsCard();
    LowerCard();
    AliasIgnoresCase("CARD");
    BeznalIsCard();
  }

  lemma CardIsCard()
    ensures PaymentAlias(Some("card")) == Card
  {
    LowerCard();
    AliasOfStripped("card");
  }

  lemma BeznalIsCard()
    ensures PaymentAlias(Some("Безнал")) == Card
  {
    LowerBeznal();
    AliasOfStripped("Безнал");
  }

  /** "нал" is cash. */
  lemma NalCellIsCash()
    ensures PaymentAlias(Some(Nal)) == Cash
  {
    assert IsStripped(Nal) by { assert Nal[0] == 'н' && Nal[2] == 'л'; }
    AliasOfStripped(Nal);
    LowerNal();
    NalIsNotCardAlias();
  }

  lemma LowerCard()
    ensures Lower("card") == "card" == CardAliases[1]
    ensures Lower("CARD") == "card"
  {
    assert "card"[1..] == "ard" && "ard"[1..] == "rd" && "rd"[1..] == "d" && "d"[1..] == [];
    assert "CARD"[1..] == "ARD" && "ARD"[1..] == "RD" && "RD"[1..] == "D" && "D"[1..] == [];
  }

  lemma LowerBeznal()
    ensures Lower("Безнал") == "безнал" == CardAliases[0]
  {
    assert "Безнал"[1..] == "езнал" && "езнал"[1..] == "знал" && "знал"[1..] == "нал";
    LowerNal();
  }
}

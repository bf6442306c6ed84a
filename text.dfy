/**
 * The string primitives the ledger relies on: Python's str.strip(), str.lower(),
 * str.isdigit(), float() on decimal text, str.replace(",", "."), and the
 * byte-order comparison SQLite uses for TEXT columns.
 */
module Text {
  import opened Util

  // ----- whitespace and strip() -----

  /** The whitespace characters strip() removes (the ASCII ones). */
  predicate IsSpace(c: char) {
    c == ' ' || c == '\t' || c == '\n' || c == '\r' || c == '\U{000B}' || c == '\U{000C}'
  }

  predicate AllSpace(s: string) {
    forall k | 0 <= k < |s| :: IsSpace(s[k])
  }

  /** Neither end of s is whitespace. */
  predicate IsStripped(s: string) {
    s == [] || (!IsSpace(s[0]) && !IsSpace(s[|s| - 1]))
  }

  /** The end of the run of whitespace that starts at position i. */
  function SpacesFrom(s: string, i: nat): (j: nat)
    requires i <= |s|
    ensures i <= j <= |s|
    ensures forall k | i <= k < j :: IsSpace(s[k])
    ensures j < |s| ==> !IsSpace(s[j])
    decreases |s| - i
  {
    if i < |s| && IsSpace(s[i]) then SpacesFrom(s, i + 1) else i
  }

  /** The start of the run of whitespace that ends just before position j. */
  function SpacesBefore(s: string, j: nat): (i: nat)
    requires j <= |s|
    ensures i <= j
    ensures forall k | i <= k < j :: IsSpace(s[k])
    ensures i > 0 ==> !IsSpace(s[i - 1])
  {
    if j > 0 && IsSpace(s[j - 1]) then SpacesBefore(s, j - 1) else j
  }

  /** s without its leading whitespace. */
  function TrimLeft(s: string): (r: string)
    ensures |r| <= |s|
    ensures forall k {:trigger r[k]} | 0 <= k < |r| :: r[k] == s[|s| - |r| + k]
    ensures forall k | 0 <= k < |s| - |r| :: IsSpace(s[k])
    ensures r != [] ==> !IsSpace(r[0])
  {
    var j := SpacesFrom(s, 0);
    seq(|s| - j, k requires 0 <= k < |s| - j => s[j + k])
  }

  /** s without its trailing whitespace. */
  function TrimRight(s: string): (r: string)
    ensures |r| <= |s|
    ensures forall k {:trigger r[k]} | 0 <= k < |r| :: r[k] == s[k]
    ensures forall k | |r| <= k < |s| :: IsSpace(s[k])
    ensures r != [] ==> !IsSpace(r[|r| - 1])
  {
    s[..SpacesBefore(s, |s|)]
  }

  /** Python's s.strip(): the result is a slice of s with only whitespace
      before and after it, has no whitespace at either end, and is empty
      exactly when s is all whitespace. */
  function Strip(s: string): (r: string)
    ensures |r| <= |s|
    ensures exists i, j | 0 <= i <= j <= |s| :: r == s[i..j] && AllSpace(s[..i]) && AllSpace(s[j..])
    ensures IsStripped(r)
    ensures r == [] <==> AllSpace(s)
  {
    TrimBothEnds(s);
    TrimSlice(s);
    TrimRight(TrimLeft(s))
  }

  /** Trimming both ends cuts s at the end of its leading whitespace and at
      the start of its trailing whitespace. */
  lemma TrimSlice(s: string)
    ensures var r := TrimRight(TrimLeft(s));
      exists i, j | 0 <= i <= j <= |s| :: r == s[i..j] && AllSpace(s[..i]) && AllSpace(s[j..])
  {
    var t := TrimLeft(s);
    var r := TrimRight(t);
    var i := |s| - |t|;
    var j := i + |r|;
    assert r == s[i..j] by {
      forall k | 0 <= k < |r| ensures r[k] == s[i..j][k] {
        assert r[k] == t[k];
      }
    }
    assert AllSpace(s[..i]) by {
      forall k | 0 <= k < i ensures IsSpace(s[..i][k]) { assert s[..i][k] == s[k]; }
    }
    assert AllSpace(s[j..]) by {
      forall k | 0 <= k < |s| - j ensures IsSpace(s[j..][k]) {
        assert s[j..][k] == s[j + k] == t[|r| + k];
      }
    }
  }

  lemma TrimBothEnds(s: string)
    ensures IsStripped(TrimRight(TrimLeft(s)))
    ensures TrimRight(TrimLeft(s)) == [] <==> AllSpace(s)
  {
    var t := TrimLeft(s);
    var r := TrimRight(t);
    if r == [] {
      assert AllSpace(t);
      assert t == [];
    } else {
      assert r[0] == t[0];
      assert !AllSpace(s) by { assert s[|s| - |t|] == t[0]; }
    }
  }

  /** Stripping a stripped string changes nothing, so strip() is idempotent. */
  lemma {:induction false} StripOfStripped(s: string)
    requires IsStripped(s)
    ensures Strip(s) == s
  {
    if s != [] {
      assert TrimLeft(s) == s;
      assert TrimRight(s) == s;
    }
  }

  lemma StripIdempotent(s: string)
    ensures Strip(Strip(s)) == Strip(s)
  {
    StripOfStripped(Strip(s));
  }

  // ----- replace(",", ".") and lower() -----

  /** Python's s.replace(",", "."): every comma becomes a full stop. */
  function CommaToDot(s: string): (r: string)
    ensures |r| == |s|
    ensures forall k {:trigger r[k]} | 0 <= k < |s| :: r[k] == if s[k] == ',' then '.' else s[k]
  {
    seq(|s|, k requires 0 <= k < |s| => if s[k] == ',' then '.' else s[k])
  }

  lemma CommaToDotAppend(a: string, b: string)
    ensures CommaToDot(a + b) == CommaToDot(a) + CommaToDot(b)
  {
    var l, r := CommaToDot(a + b), CommaToDot(a) + CommaToDot(b);
    forall k | 0 <= k < |l| ensures l[k] == r[k] {
      if k < |a| { assert (a + b)[k] == a[k]; } else { assert (a + b)[k] == b[k - |a|]; }
    }
  }

  /** Text without commas is left as it is. */
  lemma CommaToDotNoComma(s: string)
    requires forall k | 0 <= k < |s| :: s[k] != ','
    ensures CommaToDot(s) == s
  {
  }

  /** The same fact as an implication, usable inside an expression. */
  lemma CommaToDotUnchanged(s: string)
    ensures (forall k | 0 <= k < |s| :: s[k] != ',') ==> CommaToDot(s) == s
  {
    if forall k | 0 <= k < |s| :: s[k] != ',' { CommaToDotNoComma(s); }
  }

  /** Python's lower() on the Latin and Cyrillic capitals (А..Я and Ё); every
      other character is kept. */
  function LowerChar(c: char): (r: char)
    ensures 'A' <= c <= 'Z' ==> 'a' <= r <= 'z' && r as int == c as int + 32
    ensures 'А' <= c <= 'Я' ==> 'а' <= r <= 'я' && r as int == c as int + 32
    ensures c == 'Ё' ==> r == 'ё'
    ensures !('A' <= c <= 'Z') && !('А' <= c <= 'Я') && c != 'Ё' ==> r == c
  {
    if 'A' <= c <= 'Z' then (c as int + 32) as char
    else if 'А' <= c <= 'Я' then (c as int + 32) as char
    else if c == 'Ё' then 'ё'
    else c
  }

  function Lower(s: string): (r: string)
    ensures |r| == |s|
    ensures forall k {:trigger r[k]} | 0 <= k < |s| :: r[k] == LowerChar(s[k])
  {
    seq(|s|, k requires 0 <= k < |s| => LowerChar(s[k]))
  }

  lemma LowerAppend(a: string, b: string)
    ensures Lower(a + b) == Lower(a) + Lower(b)
  {
    var l, r := Lower(a + b), Lower(a) + Lower(b);
    forall k | 0 <= k < |l| ensures l[k] == r[k] {
      if k < |a| { assert (a + b)[k] == a[k]; } else { assert (a + b)[k] == b[k - |a|]; }
    }
  }

  /** Lowering twice is lowering once. */
  lemma LowerIdempotent(s: string)
    ensures Lower(Lower(s)) == Lower(s)
  {
    var l := Lower(s);
    forall k | 0 <= k < |s| ensures Lower(l)[k] == l[k] {
      assert LowerChar(LowerChar(s[k])) == LowerChar(s[k]);
    }
  }

  // ----- digits -----

  /** Python's isdigit(), restricted to the ASCII digits. */
  predicate IsDigit(c: char) {
    '0' <= c <= '9'
  }

  predicate AllDigits(s: string) {
    forall k | 0 <= k < |s| :: IsDigit(s[k])
  }

  function DigitValue(c: char): (d: nat)
    requires IsDigit(c)
    ensures d < 10
  {
    c as int - '0' as int
  }

  function DigitChar(d: nat): (c: char)
    requires d < 10
    ensures IsDigit(c) && DigitValue(c) == d
  {
    ('0' as int + d) as char
  }

  /** The value of a string of decimal digits (0 for the empty string). */
  function DigitsValue(s: string): nat
    requires AllDigits(s)
  {
    if s == [] then 0 else DigitsValue(s[..|s| - 1]) * 10 + DigitValue(s[|s| - 1])
  }

  function Pow10(n: nat): (p: nat)
    ensures p >= 1
  {
    if n == 0 then 1 else 10 * Pow10(n - 1)
  }

  /** The shortest decimal spelling of n, as Python's str(n) writes it. */
  function NatToDigits(n: nat): (s: string)
    ensures |s| >= 1 && AllDigits(s)
  {
    if n < 10 then [DigitChar(n)] else NatToDigits(n / 10) + [DigitChar(n % 10)]
  }

  lemma {:induction false} DigitsValueOfNat(n: nat)
    ensures DigitsValue(NatToDigits(n)) == n
  {
    if n >= 10 {
      var p := NatToDigits(n / 10);
      var s := p + [DigitChar(n % 10)];
      assert s[..|s| - 1] == p;
      DigitsValueOfNat(n / 10);
    }
  }

  /** The int() of a two-character decimal text, as an hour or a month number. */
  function TwoDigitValue(s: string): (v: nat)
    requires |s| == 2 && AllDigits(s)
    ensures v < 100
  {
    DigitValue(s[0]) * 10 + DigitValue(s[1])
  }

  // ----- float() on decimal text -----

  /** The position of the first c in s at or after i, or |s| when there is none. */
  function IndexFrom(s: string, c: char, i: nat): (k: nat)
    requires i <= |s|
    ensures i <= k <= |s|
    ensures k < |s| ==> s[k] == c
    ensures forall j | i <= j < k :: s[j] != c
    decreases |s| - i
  {
    if i == |s| then i else if s[i] == c then i else IndexFrom(s, c, i + 1)
  }

  /** The position of the first c in s, or |s| when there is none. */
  function IndexOf(s: string, c: char): (k: nat)
    ensures k <= |s|
    ensures k < |s| ==> s[k] == c
    ensures forall j | 0 <= j < k :: s[j] != c
  {
    IndexFrom(s, c, 0)
  }

  /** digits [ "." digits ], with at least one digit in all. */
  function ParseUnsigned(s: string): (r: Option<real>)
    ensures r.Some? ==> r.value >= 0.0
  {
    var k := IndexOf(s, '.');
    var whole := s[..k];
    var frac := if k < |s| then s[k + 1..] else "";
    if AllDigits(whole) && AllDigits(frac) && |whole| + |frac| > 0 then
      Some(DecimalValue(whole, frac))
    else
      None
  }

  /** The number written whole.frac: the integer part plus frac over 10^|frac|. */
  function DecimalValue(whole: string, frac: string): (v: real)
    requires AllDigits(whole) && AllDigits(frac)
    ensures v >= 0.0
  {
    DigitsValue(whole) as real + DigitsValue(frac) as real / Pow10(|frac|) as real
  }

  /** float(s) for text that is a signed decimal number; None is Python's ValueError.
      The text must already be stripped. */
  function ParseDecimal(s: string): (r: Option<real>)
    ensures r.Some? ==> |s| > 0
    ensures r.Some? && s[0] != '-' ==> r.value >= 0.0
  {
    if |s| > 0 && s[0] == '-' then
      match ParseUnsigned(s[1..])
      case Some(x) => Some(-x)
      case None => None
    else if |s| > 0 && s[0] == '+' then ParseUnsigned(s[1..])
    else
      var r := ParseUnsigned(s);
      assert r.Some? ==> |s| > 0 by {
        if s == [] { assert IndexOf(s, '.') == 0; }
      }
      r
  }

  /** A leading '-' negates the unsigned number after it, and a leading '+'
      leaves it as it is; either sign before text that is not a number is an error. */
  lemma SignedDecimal(t: string)
    ensures ParseDecimal("-" + t) == (if ParseUnsigned(t).Some? then Some(-ParseUnsigned(t).value) else None)
    ensures ParseDecimal("+" + t) == ParseUnsigned(t)
  {
    assert ("-" + t)[1..] == t;
    assert ("+" + t)[1..] == t;
  }

  /** "-whole.frac" reads as minus the decimal number whole.frac. */
  lemma NegativeDecimalParts(whole: string, frac: string)
    requires AllDigits(whole) && AllDigits(frac) && |whole| > 0
    ensures ParseDecimal("-" + whole + "." + frac) == Some(-DecimalValue(whole, frac))
  {
    var t := whole + "." + frac;
    assert "-" + whole + "." + frac == "-" + t;
    SignedDecimal(t);
    ParseDecimalParts(whole, frac);
    assert t[0] == whole[0];
  }

  /** Python's float(s): surrounding whitespace is ignored. */
  function PyFloat(s: string): (r: Option<real>)
    ensures AllSpace(s) ==> r.None?
  {
    ParseDecimal(Strip(s))
  }

  lemma IndexOfAt(s: string, c: char, m: nat)
    requires m <= |s|
    requires forall j | 0 <= j < m :: s[j] != c
    requires m < |s| ==> s[m] == c
    ensures IndexOf(s, c) == m
  {
  }

  /** float() reads back the decimal spelling of every natural number. */
  lemma ParseNatRoundTrip(n: nat)
    ensures ParseDecimal(NatToDigits(n)) == Some(n as real)
  {
    var s := NatToDigits(n);
    assert IsDigit(s[0]);
    IndexOfAt(s, '.', |s|);
    assert s[..|s|] == s;
    DigitsValueOfNat(n);
  }

  /** float() of "whole.frac" where both parts are digit strings. */
  lemma ParseDecimalParts(whole: string, frac: string)
    requires AllDigits(whole) && AllDigits(frac) && |whole| > 0
    ensures ParseDecimal(whole + "." + frac) == Some(DecimalValue(whole, frac))
  {
    var s := whole + "." + frac;
    assert s[0] == whole[0];
    assert s[0] != '-' && s[0] != '+';
    UnsignedParts(whole, frac);
  }

  lemma UnsignedParts(whole: string, frac: string)
    requires AllDigits(whole) && AllDigits(frac) && |whole| + |frac| > 0
    ensures ParseUnsigned(whole + "." + frac) == Some(DecimalValue(whole, frac))
  {
    var s := whole + "." + frac;
    forall j | 0 <= j < |whole| ensures s[j] != '.' {
      assert s[j] == whole[j];
    }
    assert s[|whole|] == '.';
    IndexOfAt(s, '.', |whole|);
    var k := IndexOf(s, '.');
    assert k == |whole| && k < |s|;
    assert s[..k] == whole;
    assert s[k + 1..] == frac;
    var w := s[..k];
    var f := if k < |s| then s[k + 1..] else "";
    assert w == whole && f == frac;
    assert AllDigits(w) && AllDigits(f) && |w| + |f| > 0;
  }

  lemma DigitsHaveNoComma(s: string)
    requires AllDigits(s)
    ensures CommaToDot(s) == s
  {
    forall k | 0 <= k < |s| ensures s[k] != ',' {
      assert IsDigit(s[k]);
    }
    CommaToDotNoComma(s);
  }

  /** Decimal text "whole,frac" or "whole.frac": no whitespace to strip,
      the comma becomes a full stop, and float() reads whole.frac. */
  lemma DecimalText(whole: string, sep: char, frac: string)
    requires AllDigits(whole) && AllDigits(frac) && |whole| > 0
    requires sep == ',' || sep == '.'
    ensures var s := whole + [sep] + frac;
      Strip(s) == s && !AllSpace(s)
      && CommaToDot(s) == whole + "." + frac
      && Strip(whole + "." + frac) == whole + "." + frac
      && ParseDecimal(whole + "." + frac) == Some(DecimalValue(whole, frac))
  {
    SeparatedDigitsStripped(whole, sep, frac);
    SeparatedDigitsStripped(whole, '.', frac);
    CommaToDotSeparated(whole, sep, frac);
    ParseDecimalParts(whole, frac);
  }

  lemma CommaToDotSeparated(whole: string, sep: char, frac: string)
    requires AllDigits(whole) && AllDigits(frac)
    requires sep == ',' || sep == '.'
    ensures CommaToDot(whole + [sep] + frac) == whole + "." + frac
  {
    DigitsHaveNoComma(whole);
    DigitsHaveNoComma(frac);
    CommaToDotAppend(whole + [sep], frac);
    CommaToDotAppend(whole, [sep]);
    assert CommaToDot([sep]) == "." by {
      assert [sep][1..] == [];
    }
  }

  lemma SeparatedDigitsStripped(whole: string, sep: char, frac: string)
    requires AllDigits(whole) && AllDigits(frac) && |whole| > 0
    requires sep == ',' || sep == '.'
    ensures Strip(whole + [sep] + frac) == whole + [sep] + frac
    ensures !AllSpace(whole + [sep] + frac)
  {
    var s := whole + [sep] + frac;
    assert s[0] == whole[0];
    assert s[|s| - 1] == (if frac == "" then sep else frac[|frac| - 1]);
    StripOfStripped(s);
  }

  /** The decimal spelling of a natural number: nothing to strip, no comma,
      and float() reads the number back. */
  lemma WholeText(n: nat)
    ensures var s := NatToDigits(n);
      Strip(s) == s && !AllSpace(s) && CommaToDot(s) == s && ParseDecimal(s) == Some(n as real)
  {
    var s := NatToDigits(n);
    assert IsDigit(s[0]) && IsDigit(s[|s| - 1]);
    StripOfStripped(s);
    DigitsHaveNoComma(s);
    ParseNatRoundTrip(n);
  }

  // ----- SQLite's ordering of TEXT -----

  /** Lexicographic order by code point: the order SQLite's BINARY collation
      gives UTF-8 text (a proper prefix comes first). */
  predicate StrLess(a: string, b: string) {
    StrLessFrom(a, b, 0)
  }

  /** The comparison from position i on. */
  predicate StrLessFrom(a: string, b: string, i: nat)
    decreases |a| - i
  {
    if i >= |a| then i < |b|
    else if i >= |b| then false
    else if a[i] != b[i] then a[i] < b[i]
    else StrLessFrom(a, b, i + 1)
  }

  lemma {:induction false} StrLessFromIrreflexive(a: string, i: nat)
    ensures !StrLessFrom(a, a, i)
    decreases |a| - i
  {
    if i < |a| { StrLessFromIrreflexive(a, i + 1); }
  }

  lemma StrLessIrreflexive(a: string)
    ensures !StrLess(a, a)
  {
    StrLessFromIrreflexive(a, 0);
  }

  lemma {:induction false} StrLessFromTransitive(a: string, b: string, c: string, i: nat)
    requires StrLessFrom(a, b, i) && StrLessFrom(b, c, i)
    ensures StrLessFrom(a, c, i)
    decreases |a| - i
  {
    if i < |a| && i < |b| && i < |c| && a[i] == b[i] && b[i] == c[i] {
      StrLessFromTransitive(a, b, c, i + 1);
    }
  }

  lemma StrLessTransitive(a: string, b: string, c: string)
    requires StrLess(a, b) && StrLess(b, c)
    ensures StrLess(a, c)
  {
    StrLessFromTransitive(a, b, c, 0);
  }

  lemma {:induction false} StrLessFromTotal(a: string, b: string, i: nat)
    requires i <= |a| && i <= |b| && a[..i] == b[..i]
    ensures a == b || StrLessFrom(a, b, i) || StrLessFrom(b, a, i)
    decreases |a| - i
  {
    if i < |a| && i < |b| && a[i] == b[i] {
      assert a[..i + 1] == a[..i] + [a[i]] && b[..i + 1] == b[..i] + [b[i]];
      StrLessFromTotal(a, b, i + 1);
    } else if i == |a| && i == |b| {
      assert a == a[..i] && b == b[..i];
    }
  }

  lemma StrLessTotal(a: string, b: string)
    ensures a == b || StrLess(a, b) || StrLess(b, a)
  {
    StrLessFromTotal(a, b, 0);
  }

  lemma StrLessAsymmetric(a: string, b: string)
    requires StrLess(a, b)
    ensures !StrLess(b, a)
  {
    if StrLess(b, a) {
      StrLessTransitive(a, b, a);
      StrLessIrreflexive(a);
    }
  }
}

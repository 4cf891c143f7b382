/** Amounts as whole cents: `float(amt.replace(",", ""))` on an amount token,
    and the `:.2f` rendering of the largest candidate. */
module Cents {
  import opened Wrappers
  import opened Text
  import opened AmountTokens

  predicate AllDigits(s: string) {
    forall k :: 0 <= k < |s| ==> IsDigit(s[k])
  }

  function DigitValue(c: char): (d: nat)
    requires IsDigit(c)
    ensures d < 10
  {
    c as int - '0' as int
  }

  function DigitChar(d: nat): (c: char)
    requires d < 10
    ensures IsDigit(c) && DigitValue(c) == d
  {
    ('0' as int + d) as char
  }

  /** The value of a decimal numeral; the empty numeral is 0, as the integer
      part of `float(".50")` is. */
  function DigitsValue(s: string): nat
    requires AllDigits(s)
    decreases |s|
  {
    if s == [] then 0 else DigitsValue(s[..|s| - 1]) * 10 + DigitValue(s[|s| - 1])
  }

  /** `t.replace(",", "")`. */
  function StripCommas(t: string): (r: string)
    ensures ',' !in r
    decreases |t|
  {
    if t == [] then [] else (if t[0] == ',' then [] else [t[0]]) + StripCommas(t[1..])
  }

  /** Only commas are removed. */
  lemma {:induction false} StripCommasKeeps(t: string)
    requires ',' !in t
    ensures StripCommas(t) == t
    decreases |t|
  {
    if t != [] {
      StripCommasKeeps(t[1..]);
    }
  }

  /** Removing the commas of a `[\d,]*` run leaves a numeral. */
  lemma {:induction false} StripCommasOfRun(t: string)
    requires forall k :: 0 <= k < |t| ==> IsDigitOrComma(t[k])
    ensures AllDigits(StripCommas(t))
    decreases |t|
  {
    if t != [] {
      StripCommasOfRun(t[1..]);
    }
  }

  lemma {:induction false} StripCommasAppend(a: string, b: string)
    ensures StripCommas(a + b) == StripCommas(a) + StripCommas(b)
    decreases |a|
  {
    if a != [] {
      assert (a + b)[1..] == a[1..] + b;
      StripCommasAppend(a[1..], b);
    } else {
      assert a + b == b;
    }
  }

  /** Python's `float` on the comma-free strings an amount token can become,
      `\d*\.\d\d`, in cents; `None` stands for the `ValueError` of any other string. */
  function FloatCents(u: string): Option<nat> {
    if |u| >= 3 && AllDigits(u[..|u| - 3]) && u[|u| - 3] == '.' && IsDigit(u[|u| - 2]) && IsDigit(u[|u| - 1])
    then Some(DigitsValue(u[..|u| - 3]) * 100 + DigitValue(u[|u| - 2]) * 10 + DigitValue(u[|u| - 1]))
    else None
  }

  /** `float(amt.replace(",", ""))`, in cents. */
  function ParseAmount(t: string): Option<nat> {
    FloatCents(StripCommas(t))
  }

  /** Every amount token converts: the commas go, and what remains is digits
      (possibly none), the point and two digits. The value is the integer part
      read without its commas, in cents, plus the two fractional digits. */
  lemma AmountTokenParses(t: string)
    requires IsAmountToken(t)
    ensures AllDigits(StripCommas(t[..|t| - 3]))
    ensures ParseAmount(t) == Some(DigitsValue(StripCommas(t[..|t| - 3])) * 100
                                   + DigitValue(t[|t| - 2]) * 10 + DigitValue(t[|t| - 1]))
  {
    var head, tail := t[..|t| - 3], t[|t| - 3..];
    var h := StripCommas(head);
    assert StripCommas(t) == h + tail by {
      assert t == head + tail;
      StripCommasAppend(head, tail);
      assert ',' !in tail by {
        assert tail == [t[|t| - 3], t[|t| - 2], t[|t| - 1]];
      }
      StripCommasKeeps(tail);
    }
    StripCommasOfRun(head);
    var u := h + tail;
    assert u[..|u| - 3] == h;
    assert u[|u| - 3..] == tail;
  }

  /** The decimal numeral of `n`, without leading zeros. */
  function DecimalString(n: nat): (r: string)
    ensures |r| >= 1 && AllDigits(r)
    ensures r[0] == '0' ==> r == "0"
    ensures DigitsValue(r) == n
    decreases n
  {
    if n < 10 then [DigitChar(n)]
    else
      var r := DecimalString(n / 10) + [DigitChar(n % 10)];
      assert r[..|r| - 1] == DecimalString(n / 10);
      r
  }

  /** The shape `^\d+\.\d{2}$` of `f"{x:.2f}"` for a non-negative `x`, with no
      leading zero in front of a non-zero integer part. */
  predicate IsFormattedAmount(r: string) {
    |r| >= 4 && AllDigits(r[..|r| - 3]) && (r[0] == '0' ==> |r| == 4)
    && r[|r| - 3] == '.' && IsDigit(r[|r| - 2]) && IsDigit(r[|r| - 1])
  }

  /** `f"{max_val:.2f}"` for an amount of `c` cents. */
  function FormatCents(c: nat): (r: string)
    ensures IsFormattedAmount(r)
  {
    var whole := DecimalString(c / 100);
    var r := whole + "." + [DigitChar(c % 100 / 10), DigitChar(c % 10)];
    assert r[..|r| - 3] == whole;
    r
  }

  /** Converting a formatted amount back with `float` yields the amount. */
  lemma FormatRoundTrip(c: nat)
    ensures ParseAmount(FormatCents(c)) == Some(c)
  {
    var r := FormatCents(c);
    var whole := DecimalString(c / 100);
    assert r[..|r| - 3] == whole;
    StripCommasKeeps(r);
    assert (c % 100 / 10) * 10 + c % 10 == c % 100;
  }

  /** A numeral with a non-zero leading digit has a non-zero value. */
  lemma {:induction false} LeadingDigitPositive(d: string)
    requires AllDigits(d) && d != [] && d[0] != '0'
    ensures DigitsValue(d) >= 1
    decreases |d|
  {
    if |d| > 1 {
      assert d[..|d| - 1][0] == d[0];
      LeadingDigitPositive(d[..|d| - 1]);
    }
  }

  /** A numeral without leading zeros is the decimal string of its value. */
  lemma {:induction false} DecimalStringCanonical(d: string)
    requires AllDigits(d) && d != [] && (d[0] == '0' ==> d == "0")
    ensures DecimalString(DigitsValue(d)) == d
    decreases |d|
  {
    if |d| == 1 {
      assert d[..0] == [];
      assert DigitChar(DigitValue(d[0])) == d[0];
    } else {
      var init := d[..|d| - 1];
      assert init[0] == d[0];
      LeadingDigitPositive(init);
      DecimalStringCanonical(init);
      var n := DigitsValue(d);
      assert n / 10 == DigitsValue(init) && n % 10 == DigitValue(d[|d| - 1]);
      assert DigitChar(DigitValue(d[|d| - 1])) == d[|d| - 1];
      assert d == init + [d[|d| - 1]];
    }
  }

  lemma DivModTen(q: nat, r: nat)
    requires r < 10
    ensures (q * 10 + r) / 10 == q && (q * 10 + r) % 10 == r
  {
  }

  lemma DivModHundred(q: nat, r: nat)
    requires r < 100
    ensures (q * 100 + r) / 100 == q && (q * 100 + r) % 100 == r
  {
  }

  lemma CentsDigits(whole: nat, d1: nat, d2: nat)
    requires d1 < 10 && d2 < 10
    ensures (whole * 100 + d1 * 10 + d2) / 100 == whole
    ensures (whole * 100 + d1 * 10 + d2) % 100 / 10 == d1
    ensures (whole * 100 + d1 * 10 + d2) % 10 == d2
  {
    var low := d1 * 10 + d2;
    DivModTen(d1, d2);
    DivModHundred(whole, low);
    DivModTen(whole * 10 + d1, d2);
    assert whole * 100 + d1 * 10 + d2 == whole * 100 + low == (whole * 10 + d1) * 10 + d2;
  }

  lemma FormatOfParts(c: nat, whole: nat, d1: nat, d2: nat)
    requires d1 < 10 && d2 < 10 && c == whole * 100 + d1 * 10 + d2
    ensures FormatCents(c) == DecimalString(whole) + "." + [DigitChar(d1), DigitChar(d2)]
  {
    CentsDigits(whole, d1, d2);
  }

  /** The integer part and the two fractional digits of a formatted amount. */
  lemma FormattedParts(r: string)
    requires IsFormattedAmount(r)
    ensures ParseAmount(r) == Some(DigitsValue(r[..|r| - 3]) * 100
                                   + DigitValue(r[|r| - 2]) * 10 + DigitValue(r[|r| - 1]))
    ensures r == r[..|r| - 3] + "." + [DigitChar(DigitValue(r[|r| - 2])), DigitChar(DigitValue(r[|r| - 1]))]
  {
    StripCommasKeeps(r);
    assert DigitChar(DigitValue(r[|r| - 2])) == r[|r| - 2];
    assert DigitChar(DigitValue(r[|r| - 1])) == r[|r| - 1];
  }

  /** Formatting is canonical: a formatted amount is the formatting of the
      amount it converts to. */
  lemma FormatCanonical(r: string)
    requires IsFormattedAmount(r)
    ensures ParseAmount(r).Some? && FormatCents(ParseAmount(r).value) == r
  {
    var whole := r[..|r| - 3];
    FormattedParts(r);
    FormatOfParts(ParseAmount(r).value, DigitsValue(whole), DigitValue(r[|r| - 2]), DigitValue(r[|r| - 1]));
    assert whole[0] == r[0];
    DecimalStringCanonical(whole);
  }

  /** A formatted amount is itself exactly one amount token. */
  lemma FormattedIsOneToken(r: string)
    requires IsFormattedAmount(r)
    ensures FindAmounts(r) == [r]
  {
    SingleToken(r);
  }
}

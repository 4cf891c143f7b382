/** Worked inputs: the edge cases of the amount token and a few invoice texts,
    with the candidates and the result the heuristic computes for each. */
module Scenarios {
  import opened Wrappers
  import opened Text
  import opened AmountTokens
  import opened Cents
  import opened TotalExtraction

  lemma OneFractionalDigitIsNoAmount()
    ensures FindAmounts("12.3") == []
  {
    FindAmountsEmptyIff("12.3");
  }

  lemma LettersBeforePointIsNoAmount()
    ensures FindAmounts("abc.00") == []
  {
    FindAmountsEmptyIff("abc.00");
  }

  /** `float(".00")` is `0.0`: a token whose integer part is all commas converts to zero. */
  lemma CommaOnlyIntegerPart(t: string, u: string)
    requires t == ",.00" && u == ".00"
    ensures IsAmountToken(t) && ParseAmount(t) == Some(0)
  {
    StripOneComma(t, [], u);
    assert [] + u == u;
    PointZeroZero(u);
  }

  lemma PointZeroZero(u: string)
    requires u == ".00"
    ensures FloatCents(u) == Some(0)
  {
    assert u[..0] == [];
  }

  lemma ThirdFractionalDigitIsLeftOver()
    ensures FindAmounts("12.345") == ["12.34"]
  {
    var s := "12.345";
    assert MatchTokenAt(s, 0) == Some(5);
    assert MatchTokenAt(s, 5) == None;
    assert Scan(s, 6) == [];
    assert Scan(s, 5) == [];
    assert s[0..5] == "12.34";
  }

  // Building blocks of the examples.

  /** Every vocabulary word has an `l` or a `u`, so a line without either is no keyword line. */
  lemma NoKeywordWithoutLOrU(line: string)
    requires forall k :: 0 <= k < |line| ==> line[k] != 'l' && line[k] != 'L' && line[k] != 'u' && line[k] != 'U'
    ensures !IsTotalLine(line) && LineAmounts(line) == []
  {
    var low := Lower(line);
    assert 'l' !in low && 'u' !in low by {
      forall k | 0 <= k < |low| ensures low[k] != 'l' && low[k] != 'u' {
      }
    }
    TotalLineIff(line);
    forall w, p | w in LineVocabulary && 0 <= p <= |line| && OccursAt(low, p, w)
      ensures false
    {
      if 'l' in w {
        OccursAtChars(low, p, w, 'l');
      } else {
        OccursAtChars(low, p, w, 'u');
      }
    }
  }

  /** Any capitalisation of "total" inside a line makes it a keyword line. */
  lemma WordMakesTotalLine(line: string, a: string, w: string, b: string)
    requires line == a + w + b && Lower(w) == "total"
    ensures IsTotalLine(line)
  {
    LowerAppend(a + w, b);
    LowerAppend(a, w);
    OccursAtJoin(Lower(a), "total", Lower(b));
    TotalLineIff(line);
    assert "total" in LineVocabulary;
  }

  /** The word "Total" or "total" at index `p` of a line. */
  lemma TotalWordAt(line: string, p: nat)
    requires p + 5 <= |line| && (line[p..p + 5] == "Total" || line[p..p + 5] == "total")
    ensures IsTotalLine(line)
  {
    var w := line[p..p + 5];
    assert Lower(w) == "total";
    assert line == line[..p] + w + line[p + 5..];
    WordMakesTotalLine(line, line[..p], w, line[p + 5..]);
  }

  /** A line whose only digits and commas are those of one final token. */
  lemma OneAmountLine(line: string, head: string, t: string)
    requires line == head + [' '] + t && IsAmountToken(t)
    requires forall k :: 0 <= k < |head| ==> !IsDigitOrComma(head[k])
    ensures FindAmounts(line) == [t]
  {
    FindAmountsSplit(head, ' ', t);
    NoDigitOrCommaNoMatch(head);
    SingleToken(t);
  }

  lemma OneAmountTotalLine(line: string, head: string, t: string, c: nat)
    requires line == head + [' '] + t && IsAmountToken(t) && ParseAmount(t) == Some(c)
    requires forall k :: 0 <= k < |head| ==> !IsDigitOrComma(head[k])
    requires IsTotalLine(line)
    ensures LineAmounts(line) == [c]
  {
    LineAmountsByFallbackRegex(line);
    OneAmountLine(line, head, t);
  }

  /** An amount whose integer part is the numeral `d` without leading zero
      formats as `d`, the point and its two digits, and converts back. */
  lemma NumeralAmount(c: nat, d: string, d1: nat, d2: nat)
    requires AllDigits(d) && d != [] && d[0] != '0'
    requires d1 < 10 && d2 < 10 && c == DigitsValue(d) * 100 + d1 * 10 + d2
    ensures FormatCents(c) == d + "." + [DigitChar(d1), DigitChar(d2)]
    ensures ParseAmount(d + "." + [DigitChar(d1), DigitChar(d2)]) == Some(c)
  {
    var w, tail := DigitsValue(d), "." + [DigitChar(d1), DigitChar(d2)];
    FormatOfParts(c, w, d1, d2);
    assert FormatCents(c) == DecimalString(w) + tail;
    DecimalStringCanonical(d);
    assert DecimalString(w) == d;
    FormatRoundTrip(c);
  }

  lemma TwoLines(text: string, a: string, b: string)
    requires text == a + "\n" + b && b != []
    requires forall i :: 0 <= i < |a| ==> !IsLineBoundary(a[i])
    requires forall i :: 0 <= i < |b| ==> !IsLineBoundary(b[i])
    ensures SplitLines(text) == [a, b]
  {
    SplitLinesAtBoundary(a, '\n', b);
    SplitLinesSingle(b);
  }

  lemma ThreeLines(text: string, a: string, b: string, c: string)
    requires text == a + "\n" + b + "\n" + c && c != []
    requires forall i :: 0 <= i < |a| ==> !IsLineBoundary(a[i])
    requires forall i :: 0 <= i < |b| ==> !IsLineBoundary(b[i])
    requires forall i :: 0 <= i < |c| ==> !IsLineBoundary(c[i])
    ensures SplitLines(text) == [a, b, c]
  {
    var rest := b + "\n" + c;
    assert text == a + "\n" + rest by {
      SeqAssoc(a + "\n", b + "\n", c);
      SeqAssoc(a, "\n", b + "\n");
      SeqAssoc(a + "\n" + b, "\n", c);
      SeqAssoc(a + "\n", b, "\n");
    }
    SplitLinesAtBoundary(a, '\n', rest);
    TwoLines(rest, b, c);
    assert [a] + [b, c] == [a, b, c];
  }

  lemma PrimaryOfTwo(a: string, b: string)
    ensures PrimaryCandidates([a, b]) == LineAmounts(a) + LineAmounts(b)
  {
    var la, lb := LineAmounts(a), LineAmounts(b);
    assert [a, b][1..] == [b] && [b][1..] == [];
    assert PrimaryCandidates([b]) == lb + [];
    assert lb + [] == lb;
    assert PrimaryCandidates([a, b]) == la + PrimaryCandidates([b]);
  }

  lemma PrimaryOfThree(a: string, b: string, c: string, xa: seq<nat>, xb: seq<nat>, xc: seq<nat>)
    requires LineAmounts(a) == xa && LineAmounts(b) == xb && LineAmounts(c) == xc
    ensures PrimaryCandidates([a, b, c]) == xa + xb + xc
  {
    assert [a, b, c][0] == a && [a, b, c][1..] == [b, c];
    assert PrimaryCandidates([a, b, c]) == xa + PrimaryCandidates([b, c]);
    PrimaryOfTwo(b, c);
    SeqAssoc(xa, xb, xc);
  }

  lemma StripTrailingComma(a: string)
    requires ',' !in a
    ensures StripCommas(a + [',']) == a
  {
    StripCommasAppend(a, [',']);
    StripCommasKeeps(a);
    assert StripCommas([',']) == [] + StripCommas([]);
  }

  /** A token with one thousands separator converts as if it had none. */
  lemma StripOneComma(t: string, a: string, b: string)
    requires t == a + [','] + b && ',' !in a && ',' !in b
    ensures StripCommas(t) == a + b
  {
    StripCommasAppend(a + [','], b);
    StripTrailingComma(a);
    StripCommasKeeps(b);
  }

  /** Converting and formatting a whole number of units written `d`. */
  lemma WholeAmount(c: nat, d: string, v: nat, r: string)
    requires AllDigits(d) && d != [] && d[0] != '0' && DigitsValue(d) == v
    requires c == v * 100 && r == d + ".00"
    ensures FormatCents(c) == r && ParseAmount(r) == Some(c)
  {
    NumeralAmount(c, d, 0, 0);
    assert r == d + "." + [DigitChar(0), DigitChar(0)];
  }

  // How the passes combine in the examples, whatever the lines say.

  lemma TotalOfOne(text: string, x: nat)
    requires Candidates(text) == [x]
    ensures LikelyTotal(text) == FormatCents(x)
  {
  }

  lemma MaxOfPair(x: nat, y: nat)
    ensures MaxOf([x, y]) == if x < y then y else x
  {
    assert [x, y][1..] == [y];
  }

  lemma TotalOfPair(text: string, x: nat, y: nat)
    requires Candidates(text) == [x, y]
    ensures LikelyTotal(text) == FormatCents(if x < y then y else x)
  {
    MaxOfPair(x, y);
  }

  /** Two lines, only the first yielding an amount. */
  lemma FirstOfTwoLines(text: string, a: string, b: string, x: nat)
    requires SplitLines(text) == [a, b]
    requires LineAmounts(a) == [x] && LineAmounts(b) == []
    ensures Candidates(text) == [x]
  {
    PrimaryOfTwo(a, b);
    assert [x] + [] == [x];
  }

  /** A middle line without amounts leaves the outer lines' amounts side by side. */
  lemma EmptyMiddleAmounts(x: nat, y: nat)
    ensures [x] + [] + [y] == [x, y]
  {
  }

  /** Three lines, the first and the last yielding one amount each. */
  lemma OuterOfThreeLines(text: string, a: string, b: string, c: string, x: nat, y: nat)
    requires SplitLines(text) == [a, b, c]
    requires LineAmounts(a) == [x] && LineAmounts(b) == [] && LineAmounts(c) == [y]
    ensures Candidates(text) == [x, y]
  {
    PrimaryOfThree(a, b, c, [x], [], [y]);
    EmptyMiddleAmounts(x, y);
  }

  /** Two lines, neither a keyword line: the fallback reads both. */
  lemma TwoLineFallback(text: string, a: string, b: string, ta: string, tb: string, x: nat, y: nat)
    requires SplitLines(text) == [a, b]
    requires LineAmounts(a) == [] && LineAmounts(b) == []
    requires FindAmounts(a) == [ta] && FindAmounts(b) == [tb]
    requires ParseAmount(ta) == Some(x) && ParseAmount(tb) == Some(y)
    ensures Candidates(text) == [x, y]
  {
    PrimaryOfTwo(a, b);
    FallbackIsEveryLineScan(text);
    LineByLineOfTwo(a, b);
    TwoTokenAmounts(ta, tb, x, y);
  }

  lemma LineByLineOfTwo(a: string, b: string)
    ensures LineByLineAmounts([a, b]) == FindAmounts(a) + FindAmounts(b)
  {
    var fa, fb := FindAmounts(a), FindAmounts(b);
    assert [a, b][1..] == [b] && [b][1..] == [];
    assert LineByLineAmounts([b]) == fb + [];
    assert fb + [] == fb;
  }

  lemma TwoTokenAmounts(t1: string, t2: string, x: nat, y: nat)
    requires ParseAmount(t1) == Some(x) && ParseAmount(t2) == Some(y)
    ensures Amounts([t1, t2]) == [x, y]
  {
    assert [t1, t2][1..] == [t2] && [t2][1..] == [];
    assert Amounts([t2]) == [y] + Amounts([]);
    assert Amounts([t1, t2]) == [x] + Amounts([t2]);
  }

  // One keyword line with a grouped rupee amount.

  lemma Amount125000(c: nat, d: string, t: string, r: string)
    requires c == 125000 && d == "1250" && t == "1,250.00" && r == "1250.00"
    ensures FormatCents(c) == r && ParseAmount(t) == Some(c)
  {
    assert DigitsValue(d[..1]) == 1 by { assert d[..1][..0] == ""; }
    assert DigitsValue(d[..2]) == 12 by { assert d[..2][..1] == d[..1]; }
    assert DigitsValue(d[..3]) == 125 by { assert d[..3][..2] == d[..2]; }
    WholeAmount(c, d, 1250, r);
    StripOneComma(t, d[..1], r[1..]);
    assert d[..1] + r[1..] == r;
    StripCommasKeeps(r);
  }

  lemma GrandTotalLineParts(text: string, head: string, t: string)
    requires text == "Grand Total: Rs. 1,250.00" && head == "Grand Total: Rs." && t == "1,250.00"
    ensures text == head + [' '] + t && IsAmountToken(t)
    ensures forall k :: 0 <= k < |head| ==> !IsDigitOrComma(head[k])
  {
  }

  lemma GrandTotalOneLine(text: string)
    requires text == "Grand Total: Rs. 1,250.00"
    ensures text != [] && forall i :: 0 <= i < |text| ==> !IsLineBoundary(text[i])
    ensures 11 <= |text| && text[6..11] == "Total"
  {
  }

  lemma GrandTotalRupees(text: string)
    requires text == "Grand Total: Rs. 1,250.00"
    ensures Candidates(text) == [125000]
    ensures LikelyTotal(text) == "1250.00"
  {
    var head, t, c := "Grand Total: Rs.", "1,250.00", 125000;
    GrandTotalLineParts(text, head, t);
    GrandTotalOneLine(text);
    TotalWordAt(text, 6);
    Amount125000(c, "1250", t, "1250.00");
    OneAmountTotalLine(text, head, t, c);
    OneLineCandidates(text);
    TotalOfOne(text, c);
  }

  // The subtotal line matches too; the total due is the larger.

  lemma SubtotalLine(line: string, head: string, t: string)
    requires line == "Subtotal: 100.00" && head == "Subtotal:" && t == "100.00"
    ensures 8 <= |line| && line[3..8] == "total"
    ensures line == head + [' '] + t && IsAmountToken(t)
    ensures forall k :: 0 <= k < |head| ==> !IsDigitOrComma(head[k])
    ensures forall i :: 0 <= i < |line| ==> !IsLineBoundary(line[i])
  {
  }

  lemma Amount10000(c: nat, d: string, r: string)
    requires c == 10000 && d == "100" && r == "100.00"
    ensures FormatCents(c) == r && ParseAmount(r) == Some(c)
  {
    assert DigitsValue(d[..1]) == 1 by { assert d[..1][..0] == ""; }
    assert DigitsValue(d[..2]) == 10 by { assert d[..2][..1] == d[..1]; }
    WholeAmount(c, d, 100, r);
  }

  lemma SubtotalAmounts(line: string)
    requires line == "Subtotal: 100.00"
    ensures LineAmounts(line) == [10000]
    ensures forall i :: 0 <= i < |line| ==> !IsLineBoundary(line[i])
  {
    var head, t, c := "Subtotal:", "100.00", 10000;
    SubtotalLine(line, head, t);
    TotalWordAt(line, 3);
    Amount10000(c, "100", t);
    OneAmountTotalLine(line, head, t, c);
  }

  lemma TaxLineChars(line: string)
    requires line == "Tax: 18.00"
    ensures forall k :: 0 <= k < |line| ==> line[k] != 'l' && line[k] != 'L' && line[k] != 'u' && line[k] != 'U'
  {
  }

  lemma TaxLine(line: string)
    requires line == "Tax: 18.00"
    ensures LineAmounts(line) == []
  {
    TaxLineChars(line);
    NoKeywordWithoutLOrU(line);
  }

  lemma TotalDueLine(line: string, head: string, t: string)
    requires line == "Total Due: 118.00" && head == "Total Due:" && t == "118.00"
    ensures 5 <= |line| && line[0..5] == "Total"
    ensures line == head + [' '] + t && IsAmountToken(t)
    ensures forall k :: 0 <= k < |head| ==> !IsDigitOrComma(head[k])
  {
  }

  lemma Amount11800(c: nat, d: string, r: string)
    requires c == 11800 && d == "118" && r == "118.00"
    ensures FormatCents(c) == r && ParseAmount(r) == Some(c)
  {
    assert DigitsValue(d[..1]) == 1 by { assert d[..1][..0] == ""; }
    assert DigitsValue(d[..2]) == 11 by { assert d[..2][..1] == d[..1]; }
    WholeAmount(c, d, 118, r);
  }

  lemma TotalDueAmounts(line: string)
    requires line == "Total Due: 118.00"
    ensures LineAmounts(line) == [11800]
  {
    var head, t, c := "Total Due:", "118.00", 11800;
    TotalDueLine(line, head, t);
    TotalWordAt(line, 0);
    Amount11800(c, "118", t);
    OneAmountTotalLine(line, head, t, c);
  }

  lemma SubtotalTaxDueLines(text: string, a: string, b: string, c: string)
    requires text == "Subtotal: 100.00\nTax: 18.00\nTotal Due: 118.00"
    requires a == "Subtotal: 100.00" && b == "Tax: 18.00" && c == "Total Due: 118.00"
    ensures SplitLines(text) == [a, b, c]
  {
    assert text == a + "\n" + b + "\n" + c;
    ThreeLines(text, a, b, c);
  }

  lemma SubtotalAndTotalDue(text: string)
    requires text == "Subtotal: 100.00\nTax: 18.00\nTotal Due: 118.00"
    ensures Candidates(text) == [10000, 11800]
    ensures LikelyTotal(text) == "118.00"
  {
    var a, b, c := "Subtotal: 100.00", "Tax: 18.00", "Total Due: 118.00";
    var x, y := 10000, 11800;
    SubtotalTaxDueLines(text, a, b, c);
    SubtotalAmounts(a);
    TaxLine(b);
    TotalDueAmounts(c);
    OuterOfThreeLines(text, a, b, c, x, y);
    TotalOfPair(text, x, y);
    Amount11800(y, "118", "118.00");
  }

  // "Subtotal" makes a keyword line, so the fallback never runs.

  lemma RandomNoteLine(line: string, head: string, t: string)
    requires line == "Random note 999.99" && head == "Random note" && t == "999.99"
    ensures forall k :: 0 <= k < |line| ==> line[k] != 'l' && line[k] != 'L' && line[k] != 'u' && line[k] != 'U'
    ensures line == head + [' '] + t && IsAmountToken(t)
    ensures forall k :: 0 <= k < |head| ==> !IsDigitOrComma(head[k])
    ensures line != [] && forall i :: 0 <= i < |line| ==> !IsLineBoundary(line[i])
  {
  }

  lemma RandomNoteAmounts(line: string, t: string)
    requires line == "Random note 999.99" && t == "999.99"
    ensures LineAmounts(line) == [] && FindAmounts(line) == [t]
    ensures line != [] && forall i :: 0 <= i < |line| ==> !IsLineBoundary(line[i])
  {
    var head := "Random note";
    RandomNoteLine(line, head, t);
    NoKeywordWithoutLOrU(line);
    OneAmountLine(line, head, t);
  }

  lemma SubtotalNoteLines(text: string, a: string, b: string)
    requires text == "Subtotal: 100.00\nRandom note 999.99"
    requires a == "Subtotal: 100.00" && b == "Random note 999.99"
    ensures text == a + "\n" + b
  {
  }

  lemma SubtotalBeatsNote(text: string)
    requires text == "Subtotal: 100.00\nRandom note 999.99"
    ensures Candidates(text) == [10000]
    ensures LikelyTotal(text) == "100.00"
  {
    var a, b, x := "Subtotal: 100.00", "Random note 999.99", 10000;
    SubtotalNoteLines(text, a, b);
    SubtotalAmounts(a);
    RandomNoteAmounts(b, "999.99");
    TwoLines(text, a, b);
    FirstOfTwoLines(text, a, b, x);
    TotalOfOne(text, x);
    Amount10000(x, "100", "100.00");
  }

  // Without any keyword line the fallback scans every line.

  lemma TaxHundredLine(line: string, head: string, t: string)
    requires line == "Tax: 100.00" && head == "Tax:" && t == "100.00"
    ensures forall k :: 0 <= k < |line| ==> line[k] != 'l' && line[k] != 'L' && line[k] != 'u' && line[k] != 'U'
    ensures line == head + [' '] + t && IsAmountToken(t)
    ensures forall k :: 0 <= k < |head| ==> !IsDigitOrComma(head[k])
    ensures forall i :: 0 <= i < |line| ==> !IsLineBoundary(line[i])
  {
  }

  lemma TaxHundredAmounts(line: string, t: string)
    requires line == "Tax: 100.00" && t == "100.00"
    ensures LineAmounts(line) == [] && FindAmounts(line) == [t]
    ensures forall i :: 0 <= i < |line| ==> !IsLineBoundary(line[i])
  {
    var head := "Tax:";
    TaxHundredLine(line, head, t);
    NoKeywordWithoutLOrU(line);
    OneAmountLine(line, head, t);
  }

  lemma Amount99999(c: nat, d: string, r: string)
    requires c == 99999 && d == "999" && r == "999.99"
    ensures FormatCents(c) == r && ParseAmount(r) == Some(c)
  {
    assert DigitsValue(d[..1]) == 9 by { assert d[..1][..0] == ""; }
    assert DigitsValue(d[..2]) == 99 by { assert d[..2][..1] == d[..1]; }
    NumeralAmount(c, d, 9, 9);
    assert r == d + "." + [DigitChar(9), DigitChar(9)];
  }

  lemma TaxNoteLines(text: string, a: string, b: string)
    requires text == "Tax: 100.00\nRandom note 999.99"
    requires a == "Tax: 100.00" && b == "Random note 999.99"
    ensures text == a + "\n" + b
  {
  }

  lemma FallbackLargestInText(text: string)
    requires text == "Tax: 100.00\nRandom note 999.99"
    ensures Candidates(text) == [10000, 99999]
    ensures LikelyTotal(text) == "999.99"
  {
    var a, b, ta, tb, x, y := "Tax: 100.00", "Random note 999.99", "100.00", "999.99", 10000, 99999;
    TaxNoteLines(text, a, b);
    TaxHundredAmounts(a, ta);
    RandomNoteAmounts(b, tb);
    TwoLines(text, a, b);
    Amount10000(x, "100", ta);
    Amount99999(y, "999", tb);
    TwoLineFallback(text, a, b, ta, tb, x, y);
    TotalOfPair(text, x, y);
  }

  // Nothing to find.

  lemma NoNumbers(text: string)
    requires text == "No numbers here"
    ensures LikelyTotal(text) == NotFound
  {
    NoDigitNotFound(text);
  }

  // Two amounts on one keyword line; the larger wins.

  lemma TwoAmountsLineParts(text: string, h1: string, t1: string, h2: string, t2: string)
    requires text == "Total: INR 2,000.50 and also 50.00"
    requires h1 == "Total: INR" && t1 == "2,000.50" && h2 == "and also" && t2 == "50.00"
    ensures text == h1 + [' '] + (t1 + [' '] + (h2 + [' '] + t2))
    ensures forall k :: 0 <= k < |h1| ==> !IsDigitOrComma(h1[k])
    ensures forall k :: 0 <= k < |h2| ==> !IsDigitOrComma(h2[k])
    ensures IsAmountToken(t1) && IsAmountToken(t2)
  {
  }

  lemma TwoAmountsOneLine(text: string)
    requires text == "Total: INR 2,000.50 and also 50.00"
    ensures text != [] && forall i :: 0 <= i < |text| ==> !IsLineBoundary(text[i])
    ensures 5 <= |text| && text[0..5] == "Total"
  {
  }

  lemma TwoAmountsTokens(text: string, h1: string, t1: string, h2: string, t2: string)
    requires text == h1 + [' '] + (t1 + [' '] + (h2 + [' '] + t2))
    requires forall k :: 0 <= k < |h1| ==> !IsDigitOrComma(h1[k])
    requires forall k :: 0 <= k < |h2| ==> !IsDigitOrComma(h2[k])
    requires IsAmountToken(t1) && IsAmountToken(t2)
    ensures FindAmounts(text) == [t1, t2]
  {
    var rest := h2 + [' '] + t2;
    FindAmountsSplit(h1, ' ', t1 + [' '] + rest);
    NoDigitOrCommaNoMatch(h1);
    FindAmountsSplit(t1, ' ', rest);
    SingleToken(t1);
    OneAmountLine(rest, h2, t2);
  }

  lemma Amount200050(c: nat, d: string, t: string, r: string)
    requires c == 200050 && d == "2000" && t == "2,000.50" && r == "2000.50"
    ensures FormatCents(c) == r && ParseAmount(t) == Some(c)
  {
    assert FormatCents(c) == r && ParseAmount(r) == Some(c) by {
      assert DigitsValue(d[..1]) == 2 by { assert d[..1][..0] == ""; }
      assert DigitsValue(d[..2]) == 20 by { assert d[..2][..1] == d[..1]; }
      assert DigitsValue(d[..3]) == 200 by { assert d[..3][..2] == d[..2]; }
      NumeralAmount(c, d, 5, 0);
      assert r == d + "." + [DigitChar(5), DigitChar(0)];
    }
    Token200050(t, "2", "000.50", r);
  }

  lemma Token200050(t: string, a: string, b: string, r: string)
    requires t == "2,000.50" && a == "2" && b == "000.50" && r == "2000.50"
    ensures StripCommas(t) == r && StripCommas(r) == r
  {
    StripOneComma(t, a, b);
    StripCommasKeeps(r);
  }

  lemma Amount5000(c: nat, d: string, r: string)
    requires c == 5000 && d == "50" && r == "50.00"
    ensures ParseAmount(r) == Some(c)
  {
    assert DigitsValue(d[..1]) == 5 by { assert d[..1][..0] == ""; }
    WholeAmount(c, d, 50, r);
  }

  lemma TwoAmountsOnTotalLine(text: string)
    requires text == "Total: INR 2,000.50 and also 50.00"
    ensures Candidates(text) == [200050, 5000]
    ensures LikelyTotal(text) == "2000.50"
  {
    var h1, t1, h2, t2 := "Total: INR", "2,000.50", "and also", "50.00";
    var x, y := 200050, 5000;
    TwoAmountsLineParts(text, h1, t1, h2, t2);
    TwoAmountsOneLine(text);
    TotalWordAt(text, 0);
    TwoAmountsTokens(text, h1, t1, h2, t2);
    LineAmountsByFallbackRegex(text);
    Amount200050(x, "2000", t1, "2000.50");
    Amount5000(y, "50", t2);
    TwoTokenAmounts(t1, t2, x, y);
    OneLineCandidates(text);
    TotalOfPair(text, x, y);
  }
}

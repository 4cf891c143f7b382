/** `extract_likely_total`: find the total of an OCR'd invoice. Lines that
    mention a total are scanned for amounts first; only when they yield none is
    the whole text scanned; the largest amount wins, else "Not Found". */
module TotalExtraction {
  import opened Wrappers
  import opened Text
  import opened AmountTokens
  import opened Cents

  /** `TOTAL_KEYWORDS`. */
  const TotalKeywords: seq<string> := [
    "total due", "total amount", "net amount", "amount payable",
    "invoice total", "total sum", "balance due", "total to pay",
    "grand total", "amount to pay", "net total"
  ]

  /** Every word whose presence makes a line a keyword line: "total" and the keywords. */
  const LineVocabulary: seq<string> := ["total"] + TotalKeywords

  /** The sentinel returned when no amount is found. */
  const NotFound: string := "Not Found"

  /** `any(k in lower_line for k in keywords)`. */
  function AnyKeywordIn(lowerLine: string, keywords: seq<string>): bool
    decreases |keywords|
  {
    if keywords == [] then false
    else Contains(lowerLine, keywords[0]) || AnyKeywordIn(lowerLine, keywords[1..])
  }

  /** The test on a lower-cased line: "total" or any keyword occurs in it. */
  predicate MentionsTotal(lowerLine: string) {
    Contains(lowerLine, "total") || AnyKeywordIn(lowerLine, TotalKeywords)
  }

  predicate IsTotalLine(line: string) {
    MentionsTotal(Lower(line))
  }

  /** `any` over the keywords agrees with an occurrence of some keyword, both ways. */
  lemma {:induction false} AnyKeywordInIff(lowerLine: string, keywords: seq<string>)
    ensures AnyKeywordIn(lowerLine, keywords) <==>
      exists w, p :: w in keywords && 0 <= p <= |lowerLine| && OccursAt(lowerLine, p, w)
    decreases |keywords|
  {
    if keywords != [] {
      var w0 := keywords[0];
      AnyKeywordInIff(lowerLine, keywords[1..]);
      ContainsIff(lowerLine, w0);
      if exists w, p :: w in keywords && 0 <= p <= |lowerLine| && OccursAt(lowerLine, p, w) {
        var w, p :| w in keywords && 0 <= p <= |lowerLine| && OccursAt(lowerLine, p, w);
        if w != w0 {
          assert w in keywords[1..];
        }
      }
      if AnyKeywordIn(lowerLine, keywords[1..]) {
        var w, p :| w in keywords[1..] && 0 <= p <= |lowerLine| && OccursAt(lowerLine, p, w);
        assert w in keywords;
      }
    }
  }

  /** A line is a keyword line exactly when one of the vocabulary words occurs,
      as a substring, in its lower-cased form. */
  lemma TotalLineIff(line: string)
    ensures IsTotalLine(line) <==>
      exists w, p :: w in LineVocabulary && 0 <= p <= |line| && OccursAt(Lower(line), p, w)
  {
    var l := Lower(line);
    assert LineVocabulary[0] == "total" && LineVocabulary[1..] == TotalKeywords;
    assert MentionsTotal(l) == AnyKeywordIn(l, LineVocabulary);
    AnyKeywordInIff(l, LineVocabulary);
  }

  /** The candidates converted from a list of matches, in order; a match that
      fails to convert is skipped (the `try`/`except: continue`). */
  function Amounts(matches: seq<string>): seq<nat>
    decreases |matches|
  {
    if matches == [] then []
    else
      (match ParseAmount(matches[0]) case Some(v) => [v] case None => [])
      + Amounts(matches[1..])
  }

  /** What one line contributes in the primary pass. */
  function LineAmounts(line: string): seq<nat> {
    var lowerLine := Lower(line);
    if MentionsTotal(lowerLine) then Amounts(FindMarkedAmounts(lowerLine)) else []
  }

  /** The primary pass over the lines, in order. */
  function PrimaryCandidates(lines: seq<string>): seq<nat>
    decreases |lines|
  {
    if lines == [] then [] else LineAmounts(lines[0]) + PrimaryCandidates(lines[1..])
  }

  /** The fallback pass over the whole text. */
  function FallbackCandidates(text: string): seq<nat> {
    Amounts(FindAmounts(text))
  }

  /** The candidates the final step sees: the fallback pass replaces the primary
      pass only when that collected nothing. */
  function Candidates(text: string): seq<nat> {
    var primary := PrimaryCandidates(SplitLines(text));
    if primary != [] then primary else FallbackCandidates(text)
  }

  /** `max(candidates)`. */
  function MaxOf(xs: seq<nat>): (m: nat)
    requires xs != []
    ensures m in xs
    ensures forall x :: x in xs ==> x <= m
    decreases |xs|
  {
    if |xs| == 1 then xs[0]
    else
      var rest := MaxOf(xs[1..]);
      assert forall x :: x in xs ==> x == xs[0] || x in xs[1..];
      if rest > xs[0] then rest else xs[0]
  }

  /** What `extract_likely_total(text)` returns: either a formatted amount or the sentinel. */
  function LikelyTotal(text: string): (r: string)
    ensures r == NotFound || IsFormattedAmount(r)
  {
    var candidates := Candidates(text);
    if candidates != [] then FormatCents(MaxOf(candidates)) else NotFound
  }

  /** The `for amt in matches` loop: convert each match and append it to the
      candidates, skipping a match that fails to convert. */
  method AppendAmounts(candidates: seq<nat>, matches: seq<string>) returns (result: seq<nat>)
    ensures result == candidates + Amounts(matches)
  {
    result := candidates;
    for m := 0 to |matches|
      invariant result + Amounts(matches[m..]) == candidates + Amounts(matches)
    {
      ghost var before, rest := result, Amounts(matches[m + 1..]);
      assert matches[m..][0] == matches[m] && matches[m..][1..] == matches[m + 1..];
      match ParseAmount(matches[m])
      case Some(v) =>
        result := result + [v];
        assert Amounts(matches[m..]) == [v] + rest;
        SeqAssoc(before, [v], rest);
      case None =>
        assert Amounts(matches[m..]) == [] + rest;
        assert [] + rest == rest;
    }
    assert matches[|matches|..] == [];
  }

  /** The primary pass: the loop over the lines, scanning each keyword line
      with the keyword-line regex and appending what converts. */
  method PrimaryPass(lines: seq<string>) returns (candidates: seq<nat>)
    ensures candidates == PrimaryCandidates(lines)
  {
    candidates := [];
    for n := 0 to |lines|
      invariant candidates + PrimaryCandidates(lines[n..]) == PrimaryCandidates(lines)
    {
      ghost var before := candidates;
      var lowerLine := Lower(lines[n]);
      if MentionsTotal(lowerLine) {
        var matches := FindMarkedAmounts(lowerLine);
        candidates := AppendAmounts(candidates, matches);
      } else {
        assert before + [] == before;
      }
      assert candidates == before + LineAmounts(lines[n]);
      PrimaryStep(lines, n);
      SeqAssoc(before, LineAmounts(lines[n]), PrimaryCandidates(lines[n + 1..]));
    }
    assert lines[|lines|..] == [];
  }

  lemma PrimaryStep(lines: seq<string>, n: nat)
    requires n < |lines|
    ensures PrimaryCandidates(lines[n..]) == LineAmounts(lines[n]) + PrimaryCandidates(lines[n + 1..])
  {
    assert lines[n..][0] == lines[n] && lines[n..][1..] == lines[n + 1..];
  }

  /** `extract_likely_total`: the primary pass, the fallback over the whole
      text when that collected nothing, then the maximum or the sentinel. */
  method ExtractLikelyTotal(text: string) returns (total: string)
    ensures total == LikelyTotal(text)
  {
    var lines := SplitLines(text);
    var candidates := PrimaryPass(lines);
    if candidates == [] {
      var matches := FindAmounts(text);
      candidates := AppendAmounts(candidates, matches);
    }
    assert candidates == Candidates(text);
    if candidates != [] {
      total := FormatCents(MaxOf(candidates));
    } else {
      total := NotFound;
    }
  }

  // Properties of the heuristic.

  lemma {:induction false} AmountsAppend(a: seq<string>, b: seq<string>)
    ensures Amounts(a + b) == Amounts(a) + Amounts(b)
    decreases |a|
  {
    if a == [] {
      assert a + b == b;
    } else {
      assert (a + b)[1..] == a[1..] + b;
      AmountsAppend(a[1..], b);
    }
  }

  /** No amount token is ever skipped: each converts, in order. */
  lemma {:induction false} AmountsOfTokens(ts: seq<string>)
    requires forall t :: t in ts ==> IsAmountToken(t)
    ensures |Amounts(ts)| == |ts|
    ensures forall k :: 0 <= k < |ts| ==> Some(Amounts(ts)[k]) == ParseAmount(ts[k])
    decreases |ts|
  {
    if ts != [] {
      var t0, tail := ts[0], ts[1..];
      assert ParseAmount(t0).Some? by {
        assert t0 in ts;
        AmountTokenParses(t0);
      }
      var v, rest := ParseAmount(t0).value, Amounts(tail);
      assert |rest| == |tail| && forall k :: 0 <= k < |tail| ==> Some(rest[k]) == ParseAmount(tail[k]) by {
        assert forall t :: t in tail ==> t in ts;
        AmountsOfTokens(tail);
      }
      assert Amounts(ts) == [v] + rest;
      forall k | 0 <= k < |ts| ensures Some(Amounts(ts)[k]) == ParseAmount(ts[k]) {
        if k > 0 {
          assert ts[k] == ts[1..][k - 1];
          assert Amounts(ts)[k] == rest[k - 1];
        }
      }
    }
  }

  /** The keyword lines, in their original order, each once. */
  function KeywordLines(lines: seq<string>): seq<string>
    decreases |lines|
  {
    if lines == [] then []
    else (if IsTotalLine(lines[0]) then [lines[0]] else []) + KeywordLines(lines[1..])
  }

  /** A keyword line contributes the conversions of exactly the matches the
      fallback regex finds in it, whatever currency markers precede them. */
  lemma LineAmountsByFallbackRegex(line: string)
    ensures LineAmounts(line) == if IsTotalLine(line) then Amounts(FindAmounts(line)) else []
  {
    MarkedAmountsAreAmounts(Lower(line));
    FindAmountsLower(line);
  }

  /** The primary pass is the fallback scan restricted to the keyword lines:
      each keyword line is scanned once, however many keywords it holds, and
      no other line is looked at. */
  lemma {:induction false} PrimaryIsKeywordLineScan(lines: seq<string>)
    ensures PrimaryCandidates(lines) == Amounts(LineByLineAmounts(KeywordLines(lines)))
    decreases |lines|
  {
    if lines != [] {
      PrimaryIsKeywordLineScan(lines[1..]);
      LineAmountsByFallbackRegex(lines[0]);
      if IsTotalLine(lines[0]) {
        var rest := KeywordLines(lines[1..]);
        assert KeywordLines(lines) == [lines[0]] + rest;
        assert ([lines[0]] + rest)[1..] == rest;
        AmountsAppend(FindAmounts(lines[0]), LineByLineAmounts(rest));
      } else {
        assert KeywordLines(lines) == KeywordLines(lines[1..]);
      }
    }
  }

  /** The fallback pass sees every line of the text, keyword line or not. */
  lemma FallbackIsEveryLineScan(text: string)
    ensures FallbackCandidates(text) == Amounts(LineByLineAmounts(SplitLines(text)))
  {
    FindAmountsByLines(text);
  }

  lemma {:induction false} KeywordLineScanWithin(lines: seq<string>)
    ensures multiset(Amounts(LineByLineAmounts(KeywordLines(lines)))) <= multiset(Amounts(LineByLineAmounts(lines)))
    decreases |lines|
  {
    if lines != [] {
      KeywordLineScanWithin(lines[1..]);
      var rest := KeywordLines(lines[1..]);
      AmountsAppend(FindAmounts(lines[0]), LineByLineAmounts(lines[1..]));
      if IsTotalLine(lines[0]) {
        assert KeywordLines(lines) == [lines[0]] + rest;
        assert ([lines[0]] + rest)[1..] == rest;
        AmountsAppend(FindAmounts(lines[0]), LineByLineAmounts(rest));
      } else {
        assert KeywordLines(lines) == rest;
      }
    }
  }

  /** Every primary candidate is also a fallback candidate, as often. */
  lemma PrimaryWithinFallback(text: string)
    ensures multiset(PrimaryCandidates(SplitLines(text))) <= multiset(FallbackCandidates(text))
  {
    PrimaryIsKeywordLineScan(SplitLines(text));
    FallbackIsEveryLineScan(text);
    KeywordLineScanWithin(SplitLines(text));
  }

  /** Once a keyword line yields an amount, the other lines are irrelevant:
      two texts with the same keyword lines get the same answer. */
  lemma PrimaryIgnoresOtherLines(a: string, b: string)
    requires KeywordLines(SplitLines(a)) == KeywordLines(SplitLines(b))
    requires PrimaryCandidates(SplitLines(a)) != []
    ensures LikelyTotal(a) == LikelyTotal(b)
  {
    PrimaryIsKeywordLineScan(SplitLines(a));
    PrimaryIsKeywordLineScan(SplitLines(b));
  }

  /** The fallback pass decides only when the primary pass is empty, and then
      every line of the text counts. */
  lemma FallbackOnlyWhenPrimaryEmpty(text: string)
    ensures PrimaryCandidates(SplitLines(text)) != [] ==>
      Candidates(text) == Amounts(LineByLineAmounts(KeywordLines(SplitLines(text))))
    ensures PrimaryCandidates(SplitLines(text)) == [] ==>
      Candidates(text) == Amounts(LineByLineAmounts(SplitLines(text)))
  {
    PrimaryIsKeywordLineScan(SplitLines(text));
    FallbackIsEveryLineScan(text);
  }

  /** The answer is "Not Found" exactly when no substring of the text is an
      amount token; otherwise it is the largest candidate, which it converts
      back to. */
  lemma ResultIsMaxCandidate(text: string)
    ensures LikelyTotal(text) == NotFound <==> Candidates(text) == []
    ensures LikelyTotal(text) != NotFound ==>
      var v := ParseAmount(LikelyTotal(text));
      v.Some? && v.value in Candidates(text) && forall c :: c in Candidates(text) ==> c <= v.value
  {
    var r := LikelyTotal(text);
    if Candidates(text) != [] {
      assert r[0] != 'N';
      FormatRoundTrip(MaxOf(Candidates(text)));
    }
  }

  lemma NotFoundIff(text: string)
    ensures LikelyTotal(text) == NotFound <==>
      forall p, j :: 0 <= p <= j <= |text| ==> !IsAmountToken(text[p..j])
  {
    ResultIsMaxCandidate(text);
    CandidatesEmptyIff(text);
    FindAmountsEmptyIff(text);
  }

  /** There are candidates exactly when the whole text holds a match. */
  lemma CandidatesEmptyIff(text: string)
    ensures Candidates(text) == [] <==> FindAmounts(text) == []
  {
    var primary, fallback := PrimaryCandidates(SplitLines(text)), FallbackCandidates(text);
    ScanFindsTokens(text, 0);
    AmountsOfTokens(FindAmounts(text));
    assert |fallback| == |FindAmounts(text)|;
    if primary != [] {
      PrimaryWithinFallback(text);
      assert primary[0] in multiset(fallback);
    }
  }

  /** The answer is always an amount written in the text and never exceeds
      the largest amount the text holds. */
  lemma ResultWithinText(text: string)
    requires LikelyTotal(text) != NotFound
    ensures var v := ParseAmount(LikelyTotal(text));
      v.Some? && v.value in FallbackCandidates(text) && v.value <= MaxOf(FallbackCandidates(text))
  {
    ResultIsMaxCandidate(text);
    CandidatesWithinFallback(text);
  }

  /** Every candidate is also an amount of the fallback scan of the whole text. */
  lemma CandidatesWithinFallback(text: string)
    ensures forall x :: x in Candidates(text) ==> x in FallbackCandidates(text)
  {
    var primary := PrimaryCandidates(SplitLines(text));
    if primary != [] {
      PrimaryWithinFallback(text);
      forall x | x in primary ensures x in FallbackCandidates(text) {
        assert x in multiset(primary);
      }
    }
  }

  /** A text without a digit has no amount in it, on any line. */
  lemma NoDigitNotFound(text: string)
    requires forall k :: 0 <= k < |text| ==> !IsDigit(text[k])
    ensures LikelyTotal(text) == NotFound
  {
    NotFoundIff(text);
    forall p, j | 0 <= p <= j <= |text| ensures !IsAmountToken(text[p..j]) {
      if j - p >= 4 {
        assert text[p..j][j - p - 1] == text[j - 1];
      }
    }
  }

  /** A text of one keyword line that yields amounts: the candidates are that line's. */
  lemma OneLineCandidates(text: string)
    requires text != [] && forall i :: 0 <= i < |text| ==> !IsLineBoundary(text[i])
    requires LineAmounts(text) != []
    ensures Candidates(text) == LineAmounts(text)
  {
    SplitLinesSingle(text);
    PrimaryOfOne(text);
  }

  lemma PrimaryOfOne(line: string)
    ensures PrimaryCandidates([line]) == LineAmounts(line)
  {
    var l := LineAmounts(line);
    assert [line][1..] == [];
    assert PrimaryCandidates([line]) == l + [];
    assert l + [] == l;
  }

  /** The answer is the formatting of the largest candidate, whichever it is. */
  lemma LikelyTotalOfLargest(text: string, m: nat)
    requires m in Candidates(text) && forall x :: x in Candidates(text) ==> x <= m
    ensures LikelyTotal(text) == FormatCents(m)
  {
    MaxOfIsLargest(Candidates(text), m);
  }

  /** The maximum is the element that bounds all others. */
  lemma MaxOfIsLargest(xs: seq<nat>, m: nat)
    requires m in xs && forall x :: x in xs ==> x <= m
    ensures MaxOf(xs) == m
  {
    var mx := MaxOf(xs);
    assert mx <= m && m <= mx;
  }

  /** The maximum does not depend on the order of the candidates. */
  lemma MaxOfOrderFree(xs: seq<nat>, ys: seq<nat>)
    requires xs != [] && multiset(xs) == multiset(ys)
    ensures ys != [] && MaxOf(xs) == MaxOf(ys)
  {
    assert MaxOf(xs) in multiset(ys);
    assert MaxOf(xs) in ys;
    assert MaxOf(ys) in multiset(xs);
    assert MaxOf(ys) in xs;
  }
}

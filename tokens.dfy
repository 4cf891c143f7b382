/** The amount tokens of `main.py`: the regex `[\d,]+\.\d{2}` with `re.findall`
    semantics (leftmost match, non-overlapping, scanned left to right), and the
    keyword-line regex whose optional currency marker captures the same tokens. */
module AmountTokens {
  import opened Wrappers
  import opened Text

  /** A string the regex `[\d,]+\.\d{2}` matches in full. */
  predicate IsAmountToken(t: string) {
    |t| >= 4
    && (forall k :: 0 <= k < |t| - 3 ==> IsDigitOrComma(t[k]))
    && t[|t| - 3] == '.' && IsDigit(t[|t| - 2]) && IsDigit(t[|t| - 1])
  }

  /** End of the greedy run `[\d,]*` that starts at `i`. */
  function RunEnd(s: string, i: nat): (e: nat)
    requires i <= |s|
    ensures i <= e <= |s|
    ensures forall k :: i <= k < e ==> IsDigitOrComma(s[k])
    ensures e == |s| || !IsDigitOrComma(s[e])
    decreases |s| - i
  {
    if i < |s| && IsDigitOrComma(s[i]) then RunEnd(s, i + 1) else i
  }

  /** End of the match of `[\d,]+\.\d{2}` attempted at index `i`, if any. Giving
      back part of the greedy run never helps, because `\.` cannot match a digit
      or a comma, so the regex engine has no other end to find. */
  function MatchTokenAt(s: string, i: nat): (r: Option<nat>)
    requires i <= |s|
    ensures r.Some? ==> i + 4 <= r.value <= |s| && IsAmountToken(s[i..r.value])
  {
    if i < |s| && IsDigitOrComma(s[i]) then
      var e := RunEnd(s, i);
      if e + 3 <= |s| && s[e] == '.' && IsDigit(s[e + 1]) && IsDigit(s[e + 2]) then
        Some(e + 3)
      else None
    else None
  }

  /** The attempt at `i` finds every amount token that starts at `i`. */
  lemma MatchTokenAtComplete(s: string, i: nat, j: nat)
    requires i <= j <= |s| && IsAmountToken(s[i..j])
    ensures MatchTokenAt(s, i) == Some(j)
  {
    var t := s[i..j];
    assert forall k :: i <= k < j - 3 ==> t[k - i] == s[k];
    assert IsDigitOrComma(s[i]) && s[j - 3] == t[|t| - 3];
    assert RunEnd(s, i) == j - 3;
  }

  /** `re.findall(r"([\d,]+\.\d{2})", s[i..])`: every match, left to right. */
  function Scan(s: string, i: nat): seq<string>
    requires i <= |s|
    decreases |s| - i
  {
    if i == |s| then []
    else
      match MatchTokenAt(s, i)
      case Some(j) => [s[i..j]] + Scan(s, j)
      case None => Scan(s, i + 1)
  }

  /** Every match the scan reports is an amount token. */
  lemma {:induction false} ScanFindsTokens(s: string, i: nat)
    requires i <= |s|
    ensures forall t :: t in Scan(s, i) ==> IsAmountToken(t)
    decreases |s| - i
  {
    if i < |s| {
      match MatchTokenAt(s, i)
      case Some(j) =>
        ScanFindsTokens(s, j);
      case None =>
        ScanFindsTokens(s, i + 1);
    }
  }

  /** The fallback regex of `main.py` applied to `s`. */
  function FindAmounts(s: string): seq<string> {
    Scan(s, 0)
  }

  /** The scan finds nothing exactly when no substring is an amount token. */
  lemma {:induction false} ScanEmptyIff(s: string, i: nat)
    requires i <= |s|
    ensures Scan(s, i) == [] <==> forall p, j :: i <= p <= j <= |s| ==> !IsAmountToken(s[p..j])
    decreases |s| - i
  {
    if i == |s| {
    } else {
      match MatchTokenAt(s, i)
      case Some(j) =>
      case None =>
        ScanEmptyIff(s, i + 1);
        forall j | i <= j <= |s| ensures !IsAmountToken(s[i..j]) {
          if IsAmountToken(s[i..j]) {
            MatchTokenAtComplete(s, i, j);
          }
        }
    }
  }

  lemma FindAmountsEmptyIff(s: string)
    ensures FindAmounts(s) == [] <==> forall p, j :: 0 <= p <= j <= |s| ==> !IsAmountToken(s[p..j])
  {
    ScanEmptyIff(s, 0);
  }

  /** A text that is one amount token is matched once, in full. */
  lemma SingleToken(t: string)
    requires IsAmountToken(t)
    ensures FindAmounts(t) == [t]
  {
    assert t[0..|t|] == t;
    MatchTokenAtComplete(t, 0, |t|);
    assert Scan(t, |t|) == [];
  }

  /** A text without digits or commas holds no match. */
  lemma NoDigitOrCommaNoMatch(s: string)
    requires forall k :: 0 <= k < |s| ==> !IsDigitOrComma(s[k])
    ensures FindAmounts(s) == []
  {
    ScanSkip(s, 0, |s|);
  }

  /** Positions holding neither digit nor comma start no match. */
  lemma {:induction false} ScanSkip(s: string, i: nat, c: nat)
    requires i <= c <= |s|
    requires forall k :: i <= k < c ==> !IsDigitOrComma(s[k])
    ensures Scan(s, i) == Scan(s, c)
    decreases c - i
  {
    if i < c {
      ScanSkip(s, i + 1, c);
    }
  }

  /** A run inside `a` ends where it ends in `a + [c] + b`, when `c` is neither a digit nor a comma. */
  lemma {:induction false} RunEndPrefix(a: string, c: char, b: string, i: nat)
    requires i <= |a| && !IsDigitOrComma(c)
    ensures RunEnd(a + [c] + b, i) == RunEnd(a, i)
    decreases |a| - i
  {
    if i < |a| && IsDigitOrComma(a[i]) {
      RunEndPrefix(a, c, b, i + 1);
    }
  }

  lemma MatchTokenAtPrefix(a: string, c: char, b: string, i: nat)
    requires i <= |a| && !IsDigitOrComma(c) && c != '.'
    ensures MatchTokenAt(a + [c] + b, i) == MatchTokenAt(a, i)
  {
    var s := a + [c] + b;
    if i < |a| && IsDigitOrComma(a[i]) {
      RunEndPrefix(a, c, b, i);
      var e := RunEnd(a, i);
      assert s[|a|] == c;
      if e + 3 <= |a| {
        assert s[e] == a[e] && s[e + 1] == a[e + 1] && s[e + 2] == a[e + 2];
      }
    }
  }

  lemma {:induction false} ScanPrefix(a: string, c: char, b: string, i: nat)
    requires i <= |a| && !IsDigitOrComma(c) && c != '.'
    ensures Scan(a + [c] + b, i) == Scan(a, i) + Scan(a + [c] + b, |a| + 1)
    decreases |a| - i
  {
    var s := a + [c] + b;
    if i == |a| {
      assert s[i] == c;
      assert MatchTokenAt(s, i) == None;
      assert Scan(s, i) == Scan(s, i + 1);
    } else {
      MatchTokenAtPrefix(a, c, b, i);
      match MatchTokenAt(a, i)
      case Some(j) =>
        assert s[i..j] == a[i..j];
        ScanPrefix(a, c, b, j);
        assert Scan(s, i) == [s[i..j]] + Scan(s, j);
        assert Scan(a, i) == [a[i..j]] + Scan(a, j);
        SeqAssoc([a[i..j]], Scan(a, j), Scan(s, |a| + 1));
      case None =>
        ScanPrefix(a, c, b, i + 1);
        assert Scan(s, i) == Scan(s, i + 1);
        assert Scan(a, i) == Scan(a, i + 1);
    }
  }

  lemma {:induction false} RunEndShift(x: string, b: string, k: nat)
    requires k <= |b|
    ensures RunEnd(x + b, |x| + k) == |x| + RunEnd(b, k)
    decreases |b| - k
  {
    if k < |b| && IsDigitOrComma(b[k]) {
      RunEndShift(x, b, k + 1);
    }
  }

  lemma MatchTokenAtShift(x: string, b: string, k: nat)
    requires k <= |b|
    ensures MatchTokenAt(x + b, |x| + k) ==
      if MatchTokenAt(b, k).Some? then Some(|x| + MatchTokenAt(b, k).value) else None
  {
    var s := x + b;
    if k < |b| {
      RunEndShift(x, b, k);
      assert forall d :: k <= d < |b| ==> s[|x| + d] == b[d];
    }
  }

  /** Scanning a suffix does not look at what precedes it. */
  lemma {:induction false} ScanShift(x: string, b: string, k: nat)
    requires k <= |b|
    ensures Scan(x + b, |x| + k) == Scan(b, k)
    decreases |b| - k
  {
    var s := x + b;
    if k < |b| {
      MatchTokenAtShift(x, b, k);
      match MatchTokenAt(b, k)
      case Some(j) =>
        assert s[|x| + k..|x| + j] == b[k..j];
        ScanShift(x, b, j);
        assert Scan(s, |x| + k) == [s[|x| + k..|x| + j]] + Scan(s, |x| + j);
      case None =>
        ScanShift(x, b, k + 1);
        assert Scan(s, |x| + k) == Scan(s, |x| + k + 1);
    }
  }

  /** A character that is neither a digit, a comma nor a point separates the
      matches on its left from those on its right. */
  lemma FindAmountsSplit(a: string, c: char, b: string)
    requires !IsDigitOrComma(c) && c != '.'
    ensures FindAmounts(a + [c] + b) == FindAmounts(a) + FindAmounts(b)
  {
    ScanPrefix(a, c, b, 0);
    ScanShift(a + [c], b, 0);
  }

  lemma MatchTokenAtLower(s: string, i: nat)
    requires i <= |s|
    ensures MatchTokenAt(Lower(s), i) == MatchTokenAt(s, i)
  {
    RunEndLower(s, i);
  }

  /** Lower-casing leaves an amount token as it is. */
  lemma LowerKeepsToken(s: string, i: nat, j: nat)
    requires i <= j <= |s| && IsAmountToken(s[i..j])
    ensures Lower(s)[i..j] == s[i..j]
  {
    var l, t := Lower(s), s[i..j];
    forall k | i <= k < j ensures l[k] == s[k] {
      assert t[k - i] == s[k];
      assert k - i < |t| - 3 || k - i >= |t| - 3;
    }
  }

  /** Lower-casing changes no digit, comma or point, so it changes no match. */
  lemma {:induction false} ScanLower(s: string, i: nat)
    requires i <= |s|
    ensures Scan(Lower(s), i) == Scan(s, i)
    decreases |s| - i
  {
    var l := Lower(s);
    if i < |s| {
      assert MatchTokenAt(l, i) == MatchTokenAt(s, i) by {
        MatchTokenAtLower(s, i);
      }
      match MatchTokenAt(s, i)
      case Some(j) =>
        LowerKeepsToken(s, i, j);
        assert Scan(l, j) == Scan(s, j) by {
          ScanLower(s, j);
        }
        assert Scan(l, i) == [l[i..j]] + Scan(l, j);
        assert Scan(s, i) == [s[i..j]] + Scan(s, j);
      case None =>
        assert Scan(l, i + 1) == Scan(s, i + 1) by {
          ScanLower(s, i + 1);
        }
        assert Scan(l, i) == Scan(l, i + 1);
        assert Scan(s, i) == Scan(s, i + 1);
    } else {
      assert |l| == |s|;
      assert Scan(l, i) == Scan(s, i);
    }
  }

  lemma {:induction false} RunEndLower(s: string, i: nat)
    requires i <= |s|
    ensures RunEnd(Lower(s), i) == RunEnd(s, i)
    decreases |s| - i
  {
    if i < |s| && IsDigitOrComma(s[i]) {
      RunEndLower(s, i + 1);
    }
  }

  lemma FindAmountsLower(s: string)
    ensures FindAmounts(Lower(s)) == FindAmounts(s)
  {
    ScanLower(s, 0);
  }

  /** The matches of each line, one line after another. */
  function LineByLineAmounts(lines: seq<string>): seq<string> {
    if lines == [] then [] else FindAmounts(lines[0]) + LineByLineAmounts(lines[1..])
  }

  /** A line boundary, or the pair `\r\n`, separates the matches before it from those after it. */
  lemma FindAmountsAtBoundary(s: string, k: nat, next: nat)
    requires k < |s| && IsLineBoundary(s[k])
    requires next == if s[k] == '\r' && k + 1 < |s| && s[k + 1] == '\n' then k + 2 else k + 1
    ensures FindAmounts(s) == FindAmounts(s[..k]) + FindAmounts(s[next..])
  {
    assert s == s[..k] + [s[k]] + s[k + 1..];
    FindAmountsSplit(s[..k], s[k], s[k + 1..]);
    if next == k + 2 {
      var rest := s[next..];
      assert s[k + 1..] == [] + [s[k + 1]] + rest;
      FindAmountsSplit([], s[k + 1], rest);
      assert FindAmounts([]) == [];
    }
  }

  /** No match spans a line boundary: scanning the whole text finds exactly
      the matches of its lines, in order. */
  lemma {:induction false} FindAmountsByLines(s: string)
    ensures FindAmounts(s) == LineByLineAmounts(SplitLines(s))
    decreases |s|
  {
    if s != [] {
      var k := LineEnd(s);
      if k == |s| {
        assert SplitLines(s) == [s];
      } else {
        var next := if s[k] == '\r' && k + 1 < |s| && s[k + 1] == '\n' then k + 2 else k + 1;
        var line, rest := s[..k], s[next..];
        FindAmountsAtBoundary(s, k, next);
        assert SplitLines(s) == [line] + SplitLines(rest);
        FindAmountsByLines(rest);
        assert ([line] + SplitLines(rest))[1..] == SplitLines(rest);
      }
    }
  }

  // The keyword-line regex `(?:rs\.?|inr|₹|$)?\s*([\d,]+\.\d{2})` of `main.py`.

  /** Where the optional group `(?:rs\.?|inr|₹|$)?` can end when matched at `p`,
      in the order the regex engine tries them: `rs.`, `rs`, `inr`, `₹`, the
      end-of-string anchor `$`, and finally skipping the group. */
  function MarkerEnds(s: string, p: nat): (ends: seq<nat>)
    requires p <= |s|
    ensures ends != [] && ends[|ends| - 1] == p
    ensures forall q :: q in ends ==> p <= q <= |s| && forall k :: p <= k < q ==> !IsDigitOrComma(s[k])
  {
    (if p + 3 <= |s| && s[p] == 'r' && s[p + 1] == 's' && s[p + 2] == '.' then [p + 3] else [])
    + (if p + 2 <= |s| && s[p] == 'r' && s[p + 1] == 's' then [p + 2] else [])
    + (if p + 3 <= |s| && s[p] == 'i' && s[p + 1] == 'n' && s[p + 2] == 'r' then [p + 3] else [])
    + (if p + 1 <= |s| && s[p] == '\U{20B9}' then [p + 1] else [])
    + (if p == |s| || (p + 1 == |s| && s[p] == '\n') then [p] else [])
    + [p]
  }

  /** End of the greedy run `\s*` that starts at `q`. */
  function SpaceEnd(s: string, q: nat): (w: nat)
    requires q <= |s|
    ensures q <= w <= |s|
    ensures forall k :: q <= k < w ==> IsRegexSpace(s[k])
    ensures w == |s| || !IsRegexSpace(s[w])
    decreases |s| - q
  {
    if q < |s| && IsRegexSpace(s[q]) then SpaceEnd(s, q + 1) else q
  }

  /** `\s*` backtracking from `k` down to `q`, trying the captured group after each length. */
  function BacktrackSpaces(s: string, q: nat, k: nat): (r: Option<(nat, nat)>)
    requires q <= k <= |s|
    requires forall x :: q <= x < k ==> IsRegexSpace(s[x])
    ensures r.Some? ==> q <= r.value.0 <= k && MatchTokenAt(s, r.value.0) == Some(r.value.1)
    ensures r.Some? ==> forall x :: q <= x < r.value.0 ==> IsRegexSpace(s[x])
    decreases k - q
  {
    match MatchTokenAt(s, k)
    case Some(e) => Some((k, e))
    case None => if k == q then None else BacktrackSpaces(s, q, k - 1)
  }

  /** The first end of the currency group, in the engine's order, after which
      the rest of the pattern matches: the captured span as (start, end). */
  function TryMarkers(s: string, p: nat, ends: seq<nat>): (r: Option<(nat, nat)>)
    requires p <= |s|
    requires forall q :: q in ends ==> p <= q <= |s| && forall k :: p <= k < q ==> !IsDigitOrComma(s[k])
    ensures r.Some? ==> p <= r.value.0 <= |s| && MatchTokenAt(s, r.value.0) == Some(r.value.1)
    ensures r.Some? ==> forall k :: p <= k < r.value.0 ==> !IsDigitOrComma(s[k])
    decreases |ends|
  {
    if ends == [] then None
    else
      var q := ends[0];
      assert q in ends;
      assert forall q' :: q' in ends[1..] ==> q' in ends;
      match BacktrackSpaces(s, q, SpaceEnd(s, q))
      case Some(m) => Some(m)
      case None => TryMarkers(s, p, ends[1..])
  }

  function MarkedMatchAt(s: string, p: nat): Option<(nat, nat)>
    requires p <= |s|
  {
    TryMarkers(s, p, MarkerEnds(s, p))
  }

  /** `re.findall` of the keyword-line regex on `s[i..]`: the captured groups. */
  function ScanMarked(s: string, i: nat): seq<string>
    requires i <= |s|
    decreases |s| - i
  {
    match MarkedMatchAt(s, i)
    case Some((c, e)) => [s[c..e]] + ScanMarked(s, e)
    case None => if i == |s| then [] else ScanMarked(s, i + 1)
  }

  /** The keyword-line regex of `main.py` applied to `s`. */
  function FindMarkedAmounts(s: string): seq<string> {
    ScanMarked(s, 0)
  }

  /** An amount token at `i` is captured at once: no currency marker starts
      with a digit or a comma. */
  lemma MarkedMatchAtToken(s: string, i: nat)
    requires i <= |s| && MatchTokenAt(s, i).Some?
    ensures MarkedMatchAt(s, i) == Some((i, MatchTokenAt(s, i).value))
  {
    assert IsDigitOrComma(s[i]);
    assert MarkerEnds(s, i) == [i];
    assert SpaceEnd(s, i) == i;
  }

  lemma {:induction false} ScanMarkedIsScan(s: string, i: nat)
    requires i <= |s|
    ensures ScanMarked(s, i) == Scan(s, i)
    decreases |s| - i
  {
    match MarkedMatchAt(s, i)
    case Some((c, e)) =>
      ScanSkip(s, i, c);
      ScanMarkedIsScan(s, e);
    case None =>
      if MatchTokenAt(s, i).Some? {
        MarkedMatchAtToken(s, i);
      }
      if i < |s| {
        ScanMarkedIsScan(s, i + 1);
      }
  }

  /** The currency marker is optional and never part of the captured group,
      so the keyword-line regex captures exactly the fallback regex's matches. */
  lemma MarkedAmountsAreAmounts(s: string)
    ensures FindMarkedAmounts(s) == FindAmounts(s)
  {
    ScanMarkedIsScan(s, 0);
  }
}

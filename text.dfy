/** Character classes and string operations the total heuristic relies on:
    the regex classes `\d` and `\s`, `str.lower`, the substring test `in`
    and `str.splitlines`. */
module Text {

  /** `\d`, restricted to ASCII digits. */
  predicate IsDigit(c: char) { '0' <= c <= '9' }

  /** The class `[\d,]` of the integer part of an amount token. */
  predicate IsDigitOrComma(c: char) { IsDigit(c) || c == ',' }

  /** `\s` on a Python `str`: the characters for which `str.isspace()` holds. */
  predicate IsRegexSpace(c: char) {
    c == ' ' || '\t' <= c <= '\r' || '\U{1C}' <= c <= '\U{1F}' || c == '\U{85}' || c == '\U{A0}'
    || c == '\U{1680}' || '\U{2000}' <= c <= '\U{200A}' || c == '\U{2028}' || c == '\U{2029}'
    || c == '\U{202F}' || c == '\U{205F}' || c == '\U{3000}'
  }

  /** The characters at which `str.splitlines` ends a line. */
  predicate IsLineBoundary(c: char) {
    '\n' <= c <= '\r' || '\U{1C}' <= c <= '\U{1E}' || c == '\U{85}' || c == '\U{2028}' || c == '\U{2029}'
  }

  /** `str.lower` on one character, restricted to ASCII upper-case letters. */
  function LowerChar(c: char): (r: char)
    ensures 'A' <= c <= 'Z' ==> 'a' <= r <= 'z' && r as int - c as int == 32
    ensures !('A' <= c <= 'Z') ==> r == c
  {
    if 'A' <= c <= 'Z' then (c as int + 32) as char else c
  }

  function Lower(s: string): (r: string)
    ensures |r| == |s|
    ensures forall i :: 0 <= i < |s| ==> r[i] == LowerChar(s[i])
  {
    seq(|s|, i requires 0 <= i < |s| => LowerChar(s[i]))
  }

  lemma LowerAppend(a: string, b: string)
    ensures Lower(a + b) == Lower(a) + Lower(b)
  {
  }

  lemma SeqAssoc<T>(a: seq<T>, b: seq<T>, c: seq<T>)
    ensures (a + b) + c == a + (b + c)
  {
  }

  /** `w` occurs in `s` starting at index `p`. */
  predicate OccursAt(s: string, p: nat, w: string) {
    p + |w| <= |s| && s[p..p + |w|] == w
  }

  lemma OccursAtJoin(a: string, w: string, b: string)
    ensures OccursAt(a + w + b, |a|, w)
  {
    assert (a + w + b)[|a|..|a| + |w|] == w;
  }

  /** Every character of an occurrence is a character of the text. */
  lemma OccursAtChars(s: string, p: nat, w: string, c: char)
    requires OccursAt(s, p, w) && c in w
    ensures c in s
  {
    var k :| 0 <= k < |w| && w[k] == c;
    assert s[p..p + |w|][k] == s[p + k];
  }

  /** Python's `sub in s`, scanning `s` from the left. */
  function Contains(s: string, sub: string): bool
    decreases |s|
  {
    if |sub| <= |s| && s[..|sub|] == sub then true
    else if s == [] then false
    else Contains(s[1..], sub)
  }

  /** The scan agrees with the definition of a substring occurrence, both ways. */
  lemma {:induction false} ContainsIff(s: string, sub: string)
    ensures Contains(s, sub) <==> exists p :: 0 <= p <= |s| && OccursAt(s, p, sub)
    decreases |s|
  {
    if |sub| <= |s| && s[..|sub|] == sub {
      assert OccursAt(s, 0, sub);
    } else if s == [] {
    } else {
      var t := s[1..];
      assert Contains(s, sub) == Contains(t, sub);
      ContainsIff(t, sub);
      if Contains(t, sub) {
        var p :| 0 <= p <= |t| && OccursAt(t, p, sub);
        assert OccursAt(s, p + 1, sub) by {
          assert s[p + 1..p + 1 + |sub|] == t[p..p + |sub|];
        }
      }
      if exists p :: 0 <= p <= |s| && OccursAt(s, p, sub) {
        var p :| 0 <= p <= |s| && OccursAt(s, p, sub);
        assert p != 0;
        assert OccursAt(t, p - 1, sub) by {
          assert t[p - 1..p - 1 + |sub|] == s[p..p + |sub|];
        }
      }
    }
  }

  /** Index of the first line boundary in `s`, or `|s|` when there is none. */
  function LineEnd(s: string): (k: nat)
    ensures k <= |s|
    ensures k < |s| ==> IsLineBoundary(s[k])
    ensures forall i :: 0 <= i < k ==> !IsLineBoundary(s[i])
    decreases |s|
  {
    if s == [] || IsLineBoundary(s[0]) then 0 else 1 + LineEnd(s[1..])
  }

  /** Python's `str.splitlines()`: every boundary ends a line, `\r\n` counts as
      one boundary, and no empty line follows a final boundary. */
  function SplitLines(s: string): (lines: seq<string>)
    ensures forall l :: l in lines ==> forall i :: 0 <= i < |l| ==> !IsLineBoundary(l[i])
    decreases |s|
  {
    if s == [] then []
    else
      var k := LineEnd(s);
      if k == |s| then [s]
      else
        var next := if s[k] == '\r' && k + 1 < |s| && s[k + 1] == '\n' then k + 2 else k + 1;
        [s[..k]] + SplitLines(s[next..])
  }

  /** A line with no boundary in it ends where the text does or where the next boundary is. */
  lemma {:induction false} LineEndAfter(a: string, x: string)
    requires forall i :: 0 <= i < |a| ==> !IsLineBoundary(a[i])
    requires x == [] || IsLineBoundary(x[0])
    ensures LineEnd(a + x) == |a|
    decreases |a|
  {
    if a == [] {
      assert a + x == x;
    } else {
      assert (a + x)[1..] == a[1..] + x;
      LineEndAfter(a[1..], x);
    }
  }

  /** A line ended by one boundary character splits off from the rest; a `\r`
      counts alone only when no `\n` follows it. */
  lemma SplitLinesAtBoundary(a: string, c: char, b: string)
    requires forall i :: 0 <= i < |a| ==> !IsLineBoundary(a[i])
    requires IsLineBoundary(c) && !(c == '\r' && b != [] && b[0] == '\n')
    ensures SplitLines(a + [c] + b) == [a] + SplitLines(b)
  {
    var s, k := a + [c] + b, |a|;
    assert LineEnd(s) == k by {
      LineEndAfter(a, [c] + b);
      assert a + ([c] + b) == s;
    }
    assert s[k] == c && (k + 1 < |s| ==> s[k + 1] == b[0]);
    assert s[..k] == a && s[k + 1..] == b;
  }

  /** The pair `\r\n` ends a line as one boundary. */
  lemma SplitLinesAtCrLf(a: string, b: string)
    requires forall i :: 0 <= i < |a| ==> !IsLineBoundary(a[i])
    ensures SplitLines(a + "\r\n" + b) == [a] + SplitLines(b)
  {
    var s := a + "\r\n" + b;
    LineEndAfter(a, "\r\n" + b);
    assert a + ("\r\n" + b) == s;
    assert s[..|a|] == a && s[|a| + 2..] == b;
  }

  /** A non-empty text without boundaries is one line. */
  lemma SplitLinesSingle(a: string)
    requires a != [] && forall i :: 0 <= i < |a| ==> !IsLineBoundary(a[i])
    ensures SplitLines(a) == [a]
  {
    LineEndAfter(a, []);
    assert a + [] == a;
  }
}

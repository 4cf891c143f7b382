# Invoice total heuristic of the OCR service

The OCR service reads the text of an invoice and guesses its total with
`extract_likely_total` (`ocr-service/app/main.py`). The function works in
three steps:

1. It splits the text into lines with `str.splitlines`.
2. The primary pass keeps every line whose lower-cased form contains "total"
   or one of `TOTAL_KEYWORDS` as a substring. It scans each kept line with the
   keyword-line regex `(?:rs\.?|inr|₹|$)?\s*([\d,]+\.\d{2})`, strips the commas
   of each captured amount and converts it with `float`.
3. If the primary pass collected nothing, the fallback pass scans the whole
   text with `([\d,]+\.\d{2})` in the same way. The result is the largest
   candidate formatted with `:.2f`, or `"Not Found"` when there is none.

This project models that function and the keyword table, and proves what the
heuristic guarantees. Amounts are exact natural numbers of cents: every token
has exactly two fractional digits, so no floating point is involved.

The project has six modules:

- `Text` (`text.dfy`): the character classes `\d` and `\s`,
  `str.lower`, the substring test `in` and `str.splitlines`.
- `AmountTokens` (`tokens.dfy`): both regexes of `main.py`, with the
  leftmost, non-overlapping, left-to-right semantics of `re.findall`. The
  keyword-line regex is modelled separately, including the order in which the
  regex engine tries the currency markers and backtracks over `\s*`. It is
  then proved to capture exactly the fallback regex's matches.
- `Cents` (`cents.dfy`): comma stripping, `float` on the strings an amount
  token can become, and the `:.2f` rendering.
- `TotalExtraction` (`total.dfy`): the heuristic itself.
  - `ExtractLikelyTotal` is the imperative loop, with the mutable candidate
    list.
  - It is proved equal to the specification function `LikelyTotal`.
  - The properties of the heuristic are lemmas about `LikelyTotal`.
- `Scenarios` (`scenarios.dfy`): the edge cases of the token grammar and worked
  invoice examples, each computed on the model.
- `Wrappers` (`wrappers.dfy`): the `Option` type.

Some consequences of the code are easy to miss; the model follows the code:

- **`$` is an anchor.** In the keyword-line regex, `$` is the end-of-string
  anchor, not a dollar sign. It matches at the end of the line or before a
  final newline. A dollar sign in front of an amount is simply skipped by the
  scan. `MarkerEnds` models the anchor.
- **Any commas.** `[\d,]+` accepts any run of digits and commas before the
  point, such as `",,1,2.00"`, not only thousands groups.
- **No token is dropped.** `float(".00")` is `0.0`, so `",.00"` converts to 0
  and is kept. Every amount token converts, so the `try`/`except: continue`
  never fires on a token the regex produces (`AmountsOfTokens`,
  `CommaOnlyIntegerPart`).
- **"Subtotal" is a keyword line.** "Subtotal" contains "total".
  - For "Subtotal: 100.00 / Tax: 18.00 / Total Due: 118.00" the candidates
    are 100.00 and 118.00, and the result is "118.00" (`SubtotalAndTotalDue`).
  - For "Subtotal: 100.00 / Random note 999.99" the primary pass finds 100.00,
    the fallback never runs, and the result is "100.00" (`SubtotalBeatsNote`).
  - The fallback runs only on a text without a keyword line, such as
    "Tax: 100.00 / Random note 999.99", which gives "999.99"
    (`FallbackLargestInText`).

## Model

| member | source | states |
|---|---|---|
| Text.Contains | ocr-service/app/main.py:32 | Computes Python's `sub in s` by trying each start index from the left |
| TotalExtraction.AnyKeywordIn | ocr-service/app/main.py:32 | Computes `any(k in lower_line for k in keywords)` over the keyword list in order |
| TotalExtraction.MentionsTotal | ocr-service/app/main.py:32 | Computes the test `"total" in lower_line or any(...)` on a lower-cased line |
| TotalExtraction.IsTotalLine | ocr-service/app/main.py:30-32 | Computes the keyword test on the lower-cased form of a line |
| AmountTokens.IsAmountToken | ocr-service/app/main.py:44 | Holds of the strings `[\d,]+\.\d{2}` matches in full |
| AmountTokens.Scan | ocr-service/app/main.py:44 | Computes `re.findall` of `([\d,]+\.\d{2})` from an index: the leftmost match, then the scan after its end, else the scan one character on |
| AmountTokens.FindAmounts | ocr-service/app/main.py:44 | Computes the fallback regex's matches on a whole text |
| AmountTokens.MarkedMatchAt | ocr-service/app/main.py:35 | Computes the match of the keyword-line regex attempted at an index: the first currency alternative after which `\s*` and the token match, as the captured span |
| AmountTokens.ScanMarked | ocr-service/app/main.py:35 | Computes `re.findall` of the keyword-line regex from an index: the captured groups, left to right, without overlap |
| AmountTokens.FindMarkedAmounts | ocr-service/app/main.py:35 | Computes the keyword-line regex's captured amounts on a lower-cased line |
| Cents.FloatCents | ocr-service/app/main.py:38 | Computes `float` in cents on a comma-free string of the shape `\d*\.\d\d`, and `None` for a conversion error |
| Cents.ParseAmount | ocr-service/app/main.py:38 | Computes `float(amt.replace(",", ""))` in cents, `None` when it raises |
| TotalExtraction.Amounts | ocr-service/app/main.py:36-49 | Computes the candidates a list of matches adds, in order, skipping a match whose conversion fails |
| TotalExtraction.LineAmounts | ocr-service/app/main.py:30-40 | Computes what one line adds in the primary pass: its keyword-line regex matches converted when it is a keyword line, nothing otherwise |
| TotalExtraction.PrimaryCandidates | ocr-service/app/main.py:29-40 | Computes the candidates of the loop over the lines, line after line |
| TotalExtraction.FallbackCandidates | ocr-service/app/main.py:42-49 | Computes the candidates of the whole-text fallback scan |
| TotalExtraction.Candidates | ocr-service/app/main.py:27-49 | Computes the candidate list the final step sees: the primary candidates, or the fallback's when those are empty |
| TotalExtraction.TotalLineIff | ocr-service/app/main.py:20-32 | A line is a keyword line exactly when "total" or one of the eleven keywords occurs as a substring of its lower-cased form (both directions) |
| TotalExtraction.AnyKeywordInIff | ocr-service/app/main.py:32 | `any(k in lower_line for k in keywords)` holds exactly when some keyword of the list occurs in the line |
| Text.ContainsIff | ocr-service/app/main.py:32 | Python's `sub in s` holds exactly when `sub` occurs at some index of `s` |
| Text.Lower | ocr-service/app/main.py:30 | `str.lower` keeps the length and lower-cases each ASCII capital, leaving every other character as it is |
| Text.LowerAppend | ocr-service/app/main.py:30 | Lower-casing distributes over concatenation |
| Text.LineEnd | ocr-service/app/main.py:29 | The first line boundary of the text, or its length when there is none |
| Text.SplitLines | ocr-service/app/main.py:29 | `str.splitlines` never leaves a line boundary inside a line |
| Text.SplitLinesAtBoundary | ocr-service/app/main.py:29 | A boundary-free line followed by any one boundary character (a `\r` only when no `\n` follows) and more text splits into that line followed by the lines of the rest |
| Text.SplitLinesAtCrLf | ocr-service/app/main.py:29 | A boundary-free line followed by `\r\n` and more text splits into that line followed by the lines of the rest: the pair is one boundary |
| Text.SplitLinesSingle | ocr-service/app/main.py:29 | A non-empty text without boundaries is a single line |
| AmountTokens.RunEnd | ocr-service/app/main.py:44 | The greedy `[\d,]*` run ends at the first character that is not a digit or comma |
| AmountTokens.MatchTokenAt | ocr-service/app/main.py:44 | A match attempted at an index spans an amount token of at least four characters |
| AmountTokens.MatchTokenAtComplete | ocr-service/app/main.py:44 | Every amount token starting at an index is exactly what the attempt there finds |
| AmountTokens.ScanFindsTokens | ocr-service/app/main.py:44 | Every match `re.findall` reports is an amount token |
| AmountTokens.ScanEmptyIff | ocr-service/app/main.py:44 | The scan from an index finds nothing exactly when no substring after it is an amount token |
| AmountTokens.FindAmountsEmptyIff | ocr-service/app/main.py:44 | The fallback regex finds nothing exactly when no substring of the text is an amount token |
| AmountTokens.SingleToken | ocr-service/app/main.py:44 | A text that is one amount token is matched once, in full |
| AmountTokens.NoDigitOrCommaNoMatch | ocr-service/app/main.py:44 | A text without digits or commas has no match |
| AmountTokens.ScanSkip | ocr-service/app/main.py:44 | Skipping characters that are no digit or comma does not change the matches |
| AmountTokens.ScanPrefix | ocr-service/app/main.py:44 | Across a separator that is no digit, comma or point, the scan finds the matches of the part before it, then those after it |
| AmountTokens.ScanShift | ocr-service/app/main.py:44 | The matches after a prefix are the matches of the suffix on its own |
| AmountTokens.FindAmountsSplit | ocr-service/app/main.py:44 | A separator that is no digit, comma or point splits the matches into those before it and those after it |
| AmountTokens.ScanLower | ocr-service/app/main.py:30-35 | Lower-casing a text does not change the matches from any index |
| AmountTokens.FindAmountsLower | ocr-service/app/main.py:30-35 | Scanning the lower-cased line finds the same amounts as scanning the line |
| AmountTokens.LowerKeepsToken | ocr-service/app/main.py:30-35 | Lower-casing leaves every amount token of a text unchanged |
| AmountTokens.FindAmountsAtBoundary | ocr-service/app/main.py:29-44 | A line boundary, or a `\r\n` pair, separates the matches before it from those after it |
| AmountTokens.FindAmountsByLines | ocr-service/app/main.py:29-44 | No match spans a line boundary: the whole-text scan finds exactly the matches of the lines, in order |
| AmountTokens.MarkerEnds | ocr-service/app/main.py:35 | Each place the optional currency group can end lies after no digit or comma, and skipping the group is the last alternative tried |
| AmountTokens.SpaceEnd | ocr-service/app/main.py:35 | The `\s*` run covers only whitespace and is greedy: it stops at the end of the text or at a character that is no whitespace |
| AmountTokens.BacktrackSpaces | ocr-service/app/main.py:35 | Backtracking over `\s*` yields only a token starting after whitespace |
| AmountTokens.TryMarkers | ocr-service/app/main.py:35 | The first currency alternative that lets the rest match captures an amount token, and nothing before it is a digit or comma |
| AmountTokens.MarkedMatchAtToken | ocr-service/app/main.py:35 | A token starting at an index is captured there at once, with no marker and no space |
| AmountTokens.ScanMarkedIsScan | ocr-service/app/main.py:35-44 | From any index, the keyword-line regex captures exactly the fallback regex's matches |
| AmountTokens.MarkedAmountsAreAmounts | ocr-service/app/main.py:35-44 | The keyword-line regex and the fallback regex yield the same amounts on every text |
| Cents.DigitChar | ocr-service/app/main.py:54 | The digit character of a digit value converts back to that value |
| Cents.StripCommas | ocr-service/app/main.py:38 | `replace(",", "")` leaves no comma |
| Cents.StripCommasKeeps | ocr-service/app/main.py:38 | Comma removal leaves a comma-free string unchanged |
| Cents.StripCommasOfRun | ocr-service/app/main.py:38 | Removing the commas of a `[\d,]*` run leaves only digits |
| Cents.StripCommasAppend | ocr-service/app/main.py:38 | Comma removal distributes over concatenation |
| Cents.AmountTokenParses | ocr-service/app/main.py:37-40 | Every amount token converts, to its integer digits without commas times 100 plus its two fractional digits |
| Cents.DecimalString | ocr-service/app/main.py:54 | The decimal numeral of `n` has no leading zero and reads back as `n` |
| Cents.FormatCents | ocr-service/app/main.py:54 | `:.2f` of an amount has the shape `^\d+\.\d{2}$` with no superfluous leading zero |
| Cents.FormatRoundTrip | ocr-service/app/main.py:38-54 | Converting a formatted amount back with `float` gives the amount |
| Cents.LeadingDigitPositive | ocr-service/app/main.py:54 | A numeral with a non-zero first digit has a non-zero value |
| Cents.DecimalStringCanonical | ocr-service/app/main.py:54 | A numeral without leading zeros is the decimal string of its value |
| Cents.FormatOfParts | ocr-service/app/main.py:54 | An amount of whole units and two cent digits formats as the units, the point and the two digits |
| Cents.FormattedParts | ocr-service/app/main.py:38-54 | A formatted amount converts to its integer part times 100 plus its two digits |
| Cents.FormatCanonical | ocr-service/app/main.py:38-54 | Every string of the formatted shape is the formatting of the amount it converts to |
| Cents.FormattedIsOneToken | ocr-service/app/main.py:44-54 | A formatted amount is itself exactly one amount token |
| TotalExtraction.MaxOf | ocr-service/app/main.py:52 | `max(candidates)` is one of the candidates and at least all of them |
| TotalExtraction.LikelyTotal | ocr-service/app/main.py:51-56 | On exact cents, the result is either the sentinel or a formatted amount |
| TotalExtraction.AppendAmounts | ocr-service/app/main.py:36-40 | The conversion loop appends the conversions of the matches, in order, skipping those that fail, to the candidates collected so far |
| TotalExtraction.PrimaryPass | ocr-service/app/main.py:27-40 | The loop over the lines leaves exactly the primary candidates, keyword line by keyword line |
| TotalExtraction.ExtractLikelyTotal | ocr-service/app/main.py:26-56 | The imperative function returns exactly `LikelyTotal` of its text |
| TotalExtraction.AmountsAppend | ocr-service/app/main.py:36-40 | Converting two lists of matches one after the other is converting their concatenation |
| TotalExtraction.AmountsOfTokens | ocr-service/app/main.py:36-49 | Every amount token converts, so no match is skipped: one candidate per match, in order |
| TotalExtraction.LineAmountsByFallbackRegex | ocr-service/app/main.py:30-44 | A keyword line contributes the conversions of exactly the matches the fallback regex finds in it; any other line contributes nothing |
| TotalExtraction.PrimaryIsKeywordLineScan | ocr-service/app/main.py:29-40 | The primary pass is the token scan of the keyword lines, each scanned once however many keywords it holds |
| TotalExtraction.FallbackIsEveryLineScan | ocr-service/app/main.py:29-49 | The fallback pass collects the amounts of every line, in order |
| TotalExtraction.KeywordLineScanWithin | ocr-service/app/main.py:29-49 | The amounts of the keyword lines are a sub-multiset of the amounts of all lines |
| TotalExtraction.PrimaryWithinFallback | ocr-service/app/main.py:29-49 | Every primary candidate is also a fallback candidate, as often |
| TotalExtraction.PrimaryIgnoresOtherLines | ocr-service/app/main.py:29-42 | When a keyword line yields a candidate, texts with the same keyword lines get the same result, whatever their other lines say |
| TotalExtraction.FallbackOnlyWhenPrimaryEmpty | ocr-service/app/main.py:42-49 | The candidates are those of the keyword lines when the primary pass found any, and those of every line otherwise |
| TotalExtraction.ResultIsMaxCandidate | ocr-service/app/main.py:51-56 | The result is "Not Found" exactly when there are no candidates; otherwise it converts back to a candidate that is at least every candidate |
| TotalExtraction.NotFoundIff | ocr-service/app/main.py:36-56 | The result is "Not Found" exactly when no substring of the text is an amount token |
| TotalExtraction.CandidatesEmptyIff | ocr-service/app/main.py:29-49 | There are candidates exactly when the whole-text regex has a match |
| TotalExtraction.ResultWithinText | ocr-service/app/main.py:42-54 | A found total is an amount written somewhere in the text and is at most the largest amount in the text |
| TotalExtraction.CandidatesWithinFallback | ocr-service/app/main.py:29-49 | Every candidate is an amount of the whole-text scan |
| TotalExtraction.NoDigitNotFound | ocr-service/app/main.py:42-56 | A text without a digit gives "Not Found" |
| TotalExtraction.OneLineCandidates | ocr-service/app/main.py:29-42 | For a single keyword line that yields amounts, the candidates are that line's amounts |
| TotalExtraction.LikelyTotalOfLargest | ocr-service/app/main.py:51-54 | When `m` is a candidate and at least every candidate, the result is the formatting of `m` |
| TotalExtraction.MaxOfIsLargest | ocr-service/app/main.py:52 | `max` is the element that is at least every element |
| TotalExtraction.MaxOfOrderFree | ocr-service/app/main.py:52 | `max` depends only on the multiset of candidates, not on their order |
| Scenarios.OneFractionalDigitIsNoAmount | ocr-service/app/main.py:44 | "12.3" holds no amount token |
| Scenarios.LettersBeforePointIsNoAmount | ocr-service/app/main.py:44 | "abc.00" holds no amount token: at least one digit or comma must come before the point |
| Scenarios.CommaOnlyIntegerPart | ocr-service/app/main.py:37-40 | ",.00" is an amount token and converts to 0 cents |
| Scenarios.ThirdFractionalDigitIsLeftOver | ocr-service/app/main.py:44 | "12.345" yields the single match "12.34" |
| Scenarios.NoKeywordWithoutLOrU | ocr-service/app/main.py:20-32 | A line without an `l` or a `u` in any case is no keyword line and contributes nothing |
| Scenarios.WordMakesTotalLine | ocr-service/app/main.py:30-32 | Any capitalisation of "total" anywhere in a line makes it a keyword line |
| Scenarios.TotalWordAt | ocr-service/app/main.py:30-32 | "Total" or "total" at any index makes a line a keyword line |
| Scenarios.OneAmountLine | ocr-service/app/main.py:44 | A line made of a head without digits or commas, a space and one final token matches exactly that token |
| Scenarios.OneAmountTotalLine | ocr-service/app/main.py:30-40 | Such a keyword line contributes exactly that token's conversion |
| Scenarios.StripOneComma | ocr-service/app/main.py:38 | A token with one thousands separator converts as if it had none |
| Scenarios.WholeAmount | ocr-service/app/main.py:38-54 | A whole number of units written `d.00` formats as itself and converts back |
| Scenarios.TwoLines | ocr-service/app/main.py:29 | Two boundary-free lines and a newline split into those two lines |
| Scenarios.ThreeLines | ocr-service/app/main.py:29 | Three boundary-free lines and two newlines split into those three lines |
| Scenarios.TotalOfPair | ocr-service/app/main.py:51-54 | With two candidates the result is the formatting of the larger |
| Scenarios.TwoLineFallback | ocr-service/app/main.py:42-49 | With two lines that are no keyword lines, the candidates are the conversions of both lines' tokens |
| Scenarios.GrandTotalRupees | ocr-service/app/main.py:26-56 | "Grand Total: Rs. 1,250.00" has the single candidate 125000 cents and gives "1250.00" |
| Scenarios.SubtotalAndTotalDue | ocr-service/app/main.py:26-56 | "Subtotal: 100.00 / Tax: 18.00 / Total Due: 118.00" has the candidates 10000 and 11800 cents and gives "118.00" |
| Scenarios.SubtotalBeatsNote | ocr-service/app/main.py:26-56 | "Subtotal: 100.00 / Random note 999.99" has the single candidate 10000 cents and gives "100.00" |
| Scenarios.FallbackLargestInText | ocr-service/app/main.py:26-56 | "Tax: 100.00 / Random note 999.99" falls back to the whole text, has the candidates 10000 and 99999 cents and gives "999.99" |
| Scenarios.NoNumbers | ocr-service/app/main.py:42-56 | "No numbers here" gives "Not Found" |
| Scenarios.TwoAmountsOnTotalLine | ocr-service/app/main.py:26-56 | "Total: INR 2,000.50 and also 50.00" has the candidates 200050 and 5000 cents and gives "2000.50" |

## Left out

- The `/analyze` endpoint (`ocr-service/app/main.py:60-108`) is not modelled. It covers base64 decoding, PDF rasterisation with `pdf2image` and OCR with `pytesseract`, all calls into foreign libraries.
- Temporary files and the IPFS upload through `requests` are not modelled. They are file and network I/O.
- The FastAPI application, the pydantic request model and the `HTTPException` mapping are not modelled. They are framework glue.
- The `print` and `logging` diagnostics (`ocr-service/app/main.py:33,53`) are not modelled. They have no effect on the result.
- Floating point is not modelled: amounts are exact cents. Python's `float` and `:.2f` lose precision on amounts beyond about 2^53 cents, and the model does not.
- TotalExtraction.LikelyTotal: does not model float overflow. A token with more than about 308 integer digits makes `float` return `inf`, and `extract_likely_total` then returns `"inf"`, a third kind of result that the exact-cents model never produces.
- `str.lower` and `\d` are modelled on ASCII only. Non-ASCII capitals and non-ASCII decimal digits (which Python's `\d` accepts on `str`) are outside the model.
- Cents.FloatCents: models `float` only on the strings an amount token can become after comma removal (optional digits, a point, two digits). Every other string is treated as a conversion failure, which is enough because no other string reaches `float` here.
- Python's general `re` engine is not modelled. Only the two patterns `main.py` uses are, by hand-written scanners with the engine's matching order.

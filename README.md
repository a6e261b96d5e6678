# Password strength checker — weak-pattern detection and report feedback

This project models, in Dafny, the decision logic of a desktop password
strength checker:

- **Pattern detector** (`backend/patterns.py`), module `Patterns`. It has three
  boolean checks over a password: a run of three identical characters
  (`HasRepetition`), three consecutive code points stepping by +1 or by −1
  (`HasSequence`), and a case-insensitive substring match against the keyboard-row
  list `qwerty, asdfg, asdf, qwer, qwert, hjkl, zxcv` (`HasKeyboardPattern`).
  Each is a method with the source's loop and early return. Each is proved
  equal to a predicate that characterises it: `HasTriple`, `HasRun` and
  `HasKeyboardRow`.
- **Advice list** (`frontend/main.py`, `generate_recommendations`), module
  `PasswordCheckerFrame`. It turns an evaluation report into the ordered list
  of advice the window shows. The method appends one line per test, as the
  source does. It is proved equal to a table form of the same eight tests: a
  table of eight guarded rows (`Rules`) filtered in table order (`Fired`).
  Lemmas about that filter then state what the list is, first on the advice
  values and then on the strings the window shows:
  - at most one length advice, and it comes first;
  - one line per missing class, in the order upper, lower, digit, symbol;
  - each warning appears exactly when its condition holds;
  - no line appears twice;
  - at most eight lines;
  - the list is empty exactly when every criterion is met.
- **Entropy rating** (`frontend/main.py`, inside `update_strength_display`),
  same module. It is the three-band suffix put after the entropy figure.
- **Strength label** (`frontend/events.py`), module `StrengthLabel`. It maps a
  score to the Weak / Medium / Strong band with thresholds 30 and 70.

The evaluation report is an input record (`Report`). Its producer (entropy
estimator, scoring formula, common-password set) is not part of this model,
and no formula for it is assumed. Entropy is a `real` that is only compared
with the constants 29 and 52.

Each advice line is a constructor of `Advice`, and `Text` gives the exact
string the window shows, written as its leading words (`Lead`) followed by
the rest. The leading words of two different lines differ at a known index,
so different lines show different strings (`TextDistinct`). The pattern
warning carries the pattern names; its text joins them with `", "`. Joining
can make two different name lists read alike (`PatternTextsMayCoincide`),
but the list never holds more than one pattern warning. The method
`GenerateRecommendations` returns these strings.

Two details of the source are kept as written:
- `has_sequence` does arithmetic on code points, not on an alphabet. So `9:;`
  is a sequence (`CrossClassSequence`).
- An entropy of exactly 29 is rated "(Weak)" but gets no complexity advice,
  because the rating uses `> 29` and the advice uses `< 29`
  (`ComplexityAdviceAndRating`).

## Model

| member | source | states |
|---|---|---|
| Patterns.HasRepetition | backend/patterns.py:1-13 | returns true iff some i has p[i] == p[i+1] == p[i+2]; false for every password shorter than 3 |
| Patterns.RunLength | backend/patterns.py:4-11 | the loop's `count` is the length of the maximal run of identical characters ending at index j: all of the last n characters equal p[j], and the one before them (if any) differs |
| Patterns.HasSequence | backend/patterns.py:15-26 | returns true iff some offset starts three code points stepping by +1, or by −1; false for every password shorter than 3 |
| Patterns.HasRunReverse | backend/patterns.py:22-25 | the sequence verdict is the same for a password and its reversal, because ascending and descending triples are both tested |
| Patterns.CrossClassSequence | backend/patterns.py:22-25 | "9:;" (digit into punctuation) and "cba" are sequences; "ab" is not |
| Patterns.LowerChar | backend/patterns.py:30 | ASCII lower-casing: A–Z move by 32, every other character is unchanged, and no result is an upper-case letter |
| Patterns.Lower | backend/patterns.py:30 | the lower-cased password has the same length, holds no upper-case ASCII letter, and keeps every other character in place |
| Patterns.OccursAt | backend/patterns.py:33 | the substring test `pat in s` holds iff s[i..i+|pat|] == pat for some offset i |
| Patterns.OccursLength | backend/patterns.py:33 | a substring that occurs is never longer than the text |
| Patterns.PrefixOccurs | backend/patterns.py:33 | wherever a string occurs, each of its prefixes occurs too |
| Patterns.HasKeyboardPattern | backend/patterns.py:28-35 | returns true iff one of the seven listed patterns is a substring of the lower-cased password; false for every password shorter than 4 |
| Patterns.KeyboardRowCore | backend/patterns.py:29-35 | the check is the same as looking for one of `asdf`, `qwer`, `hjkl`, `zxcv`, since `qwerty`, `qwert` and `asdfg` extend them |
| Patterns.KeyboardRowShort | backend/patterns.py:29-35 | no password shorter than 4 characters matches, since every listed pattern has at least 4 |
| Patterns.LowerIdempotent | backend/patterns.py:30 | lower-casing twice is lower-casing once |
| Patterns.KeyboardRowCaseInsensitive | backend/patterns.py:30 | the verdict for a password and for its lower-cased form are the same |
| PasswordCheckerFrame.GenerateRecommendations | frontend/main.py:391-423 | the list built by the successive appends is exactly the texts of the advice the rule table yields, in table order |
| PasswordCheckerFrame.TextDistinct | frontend/main.py:397-421 | the eight messages are pairwise different strings, and none equals a pattern warning |
| PasswordCheckerFrame.JoinAppend | frontend/main.py:421 | `', '.join` of one more name is the earlier join, the separator, then that name |
| PasswordCheckerFrame.PatternTextsMayCoincide | frontend/main.py:421 | two different name lists (`["ab, c"]` and `["ab", "c"]`) give the same pattern warning text |
| PasswordCheckerFrame.RenderMember | frontend/main.py:393-421 | a message other than the pattern warning is in the shown strings iff its advice is in the list |
| PasswordCheckerFrame.RecommendationsSpelledOut | frontend/main.py:393-421 | the table filter equals the eight tests taken in the source's order, each appending its advice when it fires |
| PasswordCheckerFrame.RenderedSpelledOut | frontend/main.py:393-421 | the same on the texts: each test appends its line's text when it fires |
| PasswordCheckerFrame.RenderAdd | frontend/main.py:393-421 | one test's turn on the advice and on the texts agree |
| PasswordCheckerFrame.FiredLength | frontend/main.py:393-421 | the filter yields at most one line per row, and nothing iff no row fires |
| PasswordCheckerFrame.FiredMember | frontend/main.py:393-421 | an advice is in the list iff some row with that advice fires |
| PasswordCheckerFrame.FiredAppend | frontend/main.py:393-421 | filtering two tables one after the other is filtering their concatenation |
| PasswordCheckerFrame.FiredAt | frontend/main.py:393-421 | a firing row's advice sits at the position given by the number of firing rows before it |
| PasswordCheckerFrame.FiredKeepsOrder | frontend/main.py:393-421 | two firing rows appear in the list in table order |
| PasswordCheckerFrame.FiredNoDuplicates | frontend/main.py:393-421 | rows with distinct advice give a list without repeats |
| PasswordCheckerFrame.RecommendationsAtMostEight | frontend/main.py:391-423 | the list has at most 8 entries |
| PasswordCheckerFrame.RecommendationsEmptyIff | frontend/main.py:391-423 | the list is empty iff length ≥ 11, all four class flags hold, entropy ≥ 29, not common and no patterns |
| PasswordCheckerFrame.ShownLines | frontend/main.py:374-378 | the shown lines number at most 8 and are empty exactly when every criterion is met, which is when the window shows its "meets all requirements" text |
| PasswordCheckerFrame.RecommendationsNoDuplicates | frontend/main.py:396-421 | no line is given twice |
| PasswordCheckerFrame.LengthAdvice | frontend/main.py:396-399 | length < 7 puts "Use at least 7 characters" first; 7 ≤ length < 11 puts "Consider using 11+" first; length ≥ 11 gives neither; never both |
| PasswordCheckerFrame.ClassAdvice | frontend/main.py:402-409 | each class advice is present iff its class flag is false |
| PasswordCheckerFrame.ClassAdviceOrder | frontend/main.py:402-409 | class advice that is present comes in the order upper, lower, digit, symbol |
| PasswordCheckerFrame.LengthAdviceBeforeClassAdvice | frontend/main.py:396-409 | any length advice comes before any class advice |
| PasswordCheckerFrame.AdviceFollowsTable | frontend/main.py:393-421 | any two lines that are both produced appear in the order of the tests in the source |
| PasswordCheckerFrame.Warnings | frontend/main.py:412-421 | complexity advice iff entropy < 29; common-password warning iff `is_common`; one pattern warning iff patterns is non-empty, and it carries exactly the report's pattern names |
| PasswordCheckerFrame.ShownLengthAdvice | frontend/main.py:396-399 | on the shown strings: "Use at least 7 …" iff length < 7, "Consider using 11+ …" iff 7 ≤ length < 11, and that text comes first |
| PasswordCheckerFrame.ShownClassAdvice | frontend/main.py:402-409 | on the shown strings: each class message is present iff its class flag is false |
| PasswordCheckerFrame.ShownWarnings | frontend/main.py:412-421 | on the shown strings: complexity message iff entropy < 29, critical warning iff `is_common`, the pattern warning for the report's names iff patterns is non-empty |
| PasswordCheckerFrame.ShownNoDuplicates | frontend/main.py:393-421 | no string is shown twice |
| PasswordCheckerFrame.ShownFollowsTable | frontend/main.py:393-421 | any two shown messages appear in the order of their tests in the source |
| PasswordCheckerFrame.RatingOf | frontend/main.py:349-354 | "(Excellent)" iff entropy > 52; "(Good)" iff 29 < entropy ≤ 52; "(Weak)" iff entropy ≤ 29 |
| PasswordCheckerFrame.RatingMonotone | frontend/main.py:349-354 | more entropy never earns a lower rating |
| PasswordCheckerFrame.EntropyText | frontend/main.py:347-355 | the entropy text is the formatted figure, " bits", and the suffix of the rating band |
| PasswordCheckerFrame.RatingText | frontend/main.py:349-354 | the suffix is " (Excellent)" iff entropy > 52, " (Good)" iff 29 < entropy ≤ 52, " (Weak)" iff entropy ≤ 29 |
| PasswordCheckerFrame.ComplexityAdviceAndRating | frontend/main.py:349-354 | complexity advice always comes with a Weak rating; a Weak rating without the advice happens only at exactly 29 bits (line 412 tests `< 29`) |
| StrengthLabel.BandOf | frontend/events.py:8-13 | Weak iff score < 30, Medium iff 30 ≤ score < 70, Strong iff score ≥ 70, for every integer score |
| StrengthLabel.LabelText | frontend/events.py:8-13 | the label is "Strength: Weak" iff score < 30, "Strength: Medium" iff 30 ≤ score < 70, "Strength: Strong" iff score ≥ 70 |
| StrengthLabel.BandMonotone | frontend/events.py:8-13 | a higher score never gets a lower band |
| StrengthLabel.BandBoundaries | frontend/events.py:8-13 | 29 is Weak, 30 Medium, 69 Medium, 70 Strong |

## Left out

- The evaluation report's producer (`evaluate_password`: entropy estimator, scoring formula, common-password set) is not part of this model. The report is an input record, and entropy is a `real` that is only compared with constants.
- The entropy figure's formatting `f"{entropy:.2f} bits"` (frontend/main.py:348) is float rendering. `EntropyText` takes the formatted figure as a string parameter and models only the text appended to it.
- Patterns.Lower: Python's `str.lower()` folds the case of all of Unicode. The model lower-cases ASCII `A`–`Z` only. The keyboard patterns are ASCII, but a non-ASCII character that Python lower-cases into ASCII is not covered.
- Patterns.Ord: Python strings may hold lone surrogate code points, which a Dafny `char` cannot. Every other code point is modelled by `c as int`.
- The report fields that the modelled code does not read (`score`, `strength`) are not in `Report`.
- All wxPython code is not part of this model, because it only builds and updates widgets. This covers window and widget construction, colour mapping, widget setters, the show/hide toggle, the detailed-analysis dialog text and the application main loop.
- Import plumbing, error dialogs and diagnostics in frontend/main.py:6-34 are environment handling and are left out.
- frontend/events.py: only the score-to-label branching is modelled. The import on line 1 does not resolve. The handler's own reads and widget updates (lines 3-6, 9, 11, 13) are UI calls.
- PasswordCheckerFrame.GenerateRecommendations: its own `ensures` states only that the result is the rendered table filter. The bound of 8 and the empty-iff-all-criteria property are stated by `ShownLines` and the lemmas beside it, to keep the method's proof small.

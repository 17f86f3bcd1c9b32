# MER-Lev transcription error analysis, in Dafny

MER-Lev compares a reference transcript with a hypothesis transcript. It
reports a word error rate, the number of correct words, and a list of word
substitutions. Each substitution is scored by a normalised Levenshtein
similarity ratio. A substitution whose ratio reaches a threshold is flagged
as a potential pronunciation issue: the two words are spelled alike.

This project models the analysis core of `mer-lev.py` and proves its
properties:

- `Similarity.dfy` holds the similarity score of `calculate_levenshtein_ratio`.
  The edit distance is the textbook Levenshtein recurrence (`Distance`).
  `EditDistance` is the row-by-row dynamic program, proved equal to it.
  Lower-casing is `Lower`. The ratio (`Ratio`) is an exact `real`.
- `Analysis.dfy` holds `analyze_transcription_errors`. `AnalyzeTranscriptionErrors`
  is the loop over the zipped word lists that appends one record per
  substitution. It is proved equal to the specification `Substitutions`,
  and lemmas pin that specification down as the in-order filter of the
  zipped pairs. `CorrectWords` is the comprehension that counts equal pairs.
- `InputCheck.dfy` holds the blank-input guard in front of the analysis:
  Python's `str.strip()` and the warning branch.
- `Examples.dfy` evaluates the worked example the page shows.

The word lists and the error rate are inputs. In the source they come from
the jiwer library: `alignment.references[0]`, `alignment.hypotheses[0]` and
`measures['wer']`. The code pairs the two lists with `zip`, position by
position. Pairing therefore stops at the shorter list, and an inserted or
deleted word shifts every later pair. The model does exactly this. It does
not model an optimal word alignment, because the code does not use the
alignment it obtains from `jiwer.process_words` (mer-lev.py:21-22) and only
zips the token lists (mer-lev.py:26).

The page labels the rate "Match Error Rate (MER)" (mer-lev.py:75), and a
comment says "WER is essentially MER at word level" (mer-lev.py:19). The code
reads jiwer's `'wer'` field (mer-lev.py:19). The model follows the code: the
rate is an opaque `real`, passed through unchanged, and `accuracy` is
`1 - mer` with no clamping (mer-lev.py:40).

The definitions the lemmas below are about:

- `Similarity.Distance` is `Levenshtein.distance` (mer-lev.py:11).
  `Similarity.DistanceOfPrefixes` is its recurrence step restated on the
  prefixes `a[..i]`, `b[..j]`, the form the dynamic program uses.
- `Similarity.Ratio` is `calculate_levenshtein_ratio` (mer-lev.py:6-12).
- `Analysis.Record` builds one substitution entry (mer-lev.py:28-36).
- `Analysis.SubstitutionsUpTo` and `Analysis.Substitutions` are the
  `substitutions` list of the loop (mer-lev.py:25-36).
- `Analysis.CorrectWords` is `correct_words` (mer-lev.py:43).
- `Analysis.ReportOf` is the returned dictionary (mer-lev.py:38-44).
- `InputCheck.IsSpace`, `InputCheck.Strip` and `InputCheck.IsBlank` are
  Python's `str.isspace()`, `str.strip()` and the test `not text.strip()`
  (mer-lev.py:66).

## Model

| member | source | states |
|---|---|---|
| `Similarity.Lower` | mer-lev.py:11 | lower-casing keeps the length and maps each character on its own |
| `Similarity.LowerIdempotent` | mer-lev.py:11 | lower-casing twice is lower-casing once |
| `Similarity.DistanceSelf` | mer-lev.py:11 | a word is at distance 0 from itself |
| `Similarity.DistanceSymmetric` | mer-lev.py:11 | the edit distance is symmetric |
| `Similarity.DistanceAtMostLonger` | mer-lev.py:8-12 | the edit distance never exceeds the longer word's length |
| `Similarity.DistanceAtLeastLengthGap` | mer-lev.py:11 | the edit distance is at least the difference of the lengths |
| `Similarity.DistanceZeroIff` | mer-lev.py:11 | the distance is 0 if and only if the words are equal |
| `Similarity.NextRow` | mer-lev.py:11 | one row of the dynamic program holds the distances of `a[..i]` to every prefix of `b` |
| `Similarity.EditDistance` | mer-lev.py:11 | the dynamic program returns exactly the Levenshtein distance |
| `Similarity.Ratio` | mer-lev.py:6-12 | the ratio lies in [0, 1], with no division by zero for two empty words |
| `Similarity.RatioOneIff` | mer-lev.py:8-12 | the ratio is 1 if and only if the lower-cased words are equal; two empty words give 1 |
| `Similarity.RatioSelf` | mer-lev.py:8-12 | `ratio(w, w) = 1` |
| `Similarity.RatioSymmetric` | mer-lev.py:8-12 | `ratio(a, b) = ratio(b, a)` |
| `Similarity.RatioIgnoresCase` | mer-lev.py:8-12 | `ratio(a, b) = ratio(lower(a), lower(b))` |
| `Analysis.MatchesUpTo` | mer-lev.py:43 | the count of equal pairs is at most the number of pairs, and equals it exactly when every pair is equal |
| `Analysis.MatchesUpToCountsEqualPositions` | mer-lev.py:43 | the count of equal pairs is the number of zipped positions whose two words agree |
| `Analysis.CorrectWords` | mer-lev.py:42-43 | `correct_words <= min(len(ref), len(hyp)) <= total_words` |
| `Analysis.AnalyzeTranscriptionErrors` | mer-lev.py:14-44 | the loop builds exactly the specified substitution list; `total_words` is the reference length; `accuracy = 1 - mer`; every record holds two different non-empty words, a ratio in [0, 1] and the flag `ratio >= threshold` |
| `Analysis.PositionsAreSubstitutedPairs` | mer-lev.py:26-27 | the recorded positions increase strictly, and a zipped position is recorded if and only if its words differ and both are non-empty |
| `Analysis.RecordsFollowPositions` | mer-lev.py:26-36 | the k-th record carries the words at the k-th recorded position |
| `Analysis.SubstitutionsFilterZip` | mer-lev.py:25-36 | the substitution list is, in order, exactly the substituted pairs among the zipped positions; none comes from past the shorter list |
| `Analysis.SubstitutionsAreScoredPairs` | mer-lev.py:27-35 | each record's ratio is the similarity of its two words, lies in [0, 1], and its flag is `ratio >= threshold` on the exact ratio |
| `Analysis.LowerThresholdOnlyAddsFlags` | mer-lev.py:30 | a lower threshold keeps every record's words and ratio and only turns flags from false to true |
| `Analysis.CorrectPlusSubstitutedUpTo` | mer-lev.py:25-43 | with no empty token, equal pairs plus records cover every zipped pair of a prefix |
| `Analysis.CorrectPlusSubstituted` | mer-lev.py:25-43 | with no empty token, `correct_words + len(substitutions) = min(len(ref), len(hyp))` |
| `Analysis.NoSubstitutionsUpTo` | mer-lev.py:25-36 | without a substituted pair, no record is made |
| `Analysis.IdenticalLists` | mer-lev.py:25-43 | identical word lists give no substitution and `correct_words = total_words` |
| `Analysis.NoMatchesUpTo` | mer-lev.py:43 | without an equal pair, nothing is counted correct |
| `Analysis.DisjointLists` | mer-lev.py:25-43 | same-length lists that differ everywhere give one record per word and no correct word |
| `Analysis.EmptyHypothesis` | mer-lev.py:25-43 | an empty hypothesis gives no substitution and no correct word, and `total_words` is still the reference length |
| `InputCheck.StripLeading` | mer-lev.py:66 | leading whitespace is dropped: the result is the suffix from the first non-whitespace character |
| `InputCheck.StripTrailing` | mer-lev.py:66 | trailing whitespace is dropped: the result is the prefix up to the last non-whitespace character |
| `InputCheck.BlankIff` | mer-lev.py:66 | `not text.strip()` holds if and only if the text is empty or all whitespace |
| `InputCheck.Analyze` | mer-lev.py:66-70 | a warning exactly when either text is blank, and otherwise the analysis report |
| `Examples.PlayPrayDistance` | mer-lev.py:124 | "play" and "pray" are one edit apart |
| `Examples.BaseballHockeyDistance` | mer-lev.py:125 | "baseball" and "hockey" are eight edits apart |
| `Examples.PlayPrayRatio` | mer-lev.py:124 | "play" → "pray" has ratio 0.75 and is flagged at threshold 0.5 |
| `Examples.BaseballHockeyRatio` | mer-lev.py:125 | "baseball" → "hockey" has ratio 0.0 and is not flagged at threshold 0.5 |
| `Examples.ThreeMatchesThenTwoSubstitutions` | mer-lev.py:25-43 | five pairs, three equal then two substitutions, give exactly those two records in order and 3 correct words |
| `Examples.DocumentedExample` | mer-lev.py:121-125 | the example's report: the two substitutions in order, 3 of 5 words correct |

## Left out

- The Streamlit page (mer-lev.py:46-125): text areas, slider, button, metrics, tables and messages. This is presentation. Only the blank-input guard at line 66 is modelled, as `InputCheck.Analyze`.
- The pandas table, its column renaming and row highlighting (mer-lev.py:84-101). This is a display library.
- jiwer's tokenisation, word alignment and error rate (mer-lev.py:18-22). These are foreign calls. The word lists and the rate are parameters of the model.
- The internals of the C library behind `Levenshtein.distance`. `EditDistance` is the standard dynamic program, proved equal to the mathematical definition `Distance`.
- `Analysis.AnalyzeTranscriptionErrors`: stores the exact ratio where the source stores `round(ratio, 3)` (line 34). Python's float rounding is not modelled. The flag is computed on the unrounded ratio, as in the source.
- `Similarity.Lower`: lower-cases ASCII letters only, where Python's `str.lower()` follows Unicode. Unicode mappings that change a word's length are not modelled. The [0, 1] bound in `Similarity.Ratio`'s ensures and `Similarity.RatioIgnoresCase` hold only for a lower-casing that keeps the length. In the source, the ratio can be negative when `lower()` makes a word longer: `"İ".lower()` is two code points, so the ratio of "İ" and "a" is (1 − 2) / 1 = −1 (mer-lev.py:8-12). For the same reason, the ratio of "İ" and "i" is 0, while that of their lower-cased forms is 0.5.
- Floating point: ratios, the threshold and the error rate are exact reals.
- The catch-all error display (mer-lev.py:116-117). This is error plumbing of the page.

# Teknostres survey: the submission workflow

The application is a Streamlit survey that measures technostress. A participant
enters a free-text identity (an e-mail address, a student number or a
nickname), some demographic answers and twelve Likert answers S1..S12 on 1..5
sliders. Pressing "Sonucu Göster ve Kaydet" then does four things in order:

1. It rejects an empty identity.
2. It hashes the trimmed, lower-cased identity into a token.
3. It rejects the submission if the response file `veriler.csv` already holds
   `MAX_KATILIM = 2` or more rows under that token.
4. Otherwise it classifies the average answer as Düşük, Orta or Yüksek and
   appends one row to the file.

An admin panel shows the number of rows and the gender distribution.

This project models that workflow and proves its promises:

- A rejected submission leaves the file unchanged.
- An accepted submission appends exactly one row, which holds the form's
  fields, the raw identity, the token, S1..S12, the average and the level.
- Each accepted submission raises its own token's count by one and changes no
  other token's count.
- Over any sequence of submissions, starting from no file or from one already
  within the limit, no token ever holds more than two rows.
- The identity normalisation is idempotent and ignores letter case and
  surrounding whitespace.
- The average of twelve slider answers lies in 1..5. The classifier's three
  buckets are exact if-and-only-ifs of the thresholds 2.5 and 3.5.

The model is split into four files:

- `identity.dfy` (module `Identity`): `str.strip`, `str.lower` and the token.
- `scoring.dfy` (module `Scoring`): the items, the score dictionary, the
  average and the classifier.
- `store.dfy` (modules `Wrappers` and `Store`): the response file as a data
  frame, the prior-count guard, the append and the admin counts.
- `submission.dfy` (module `Submission`): the button handler and the workflow
  lemmas.

Modelling choices:

- The digest (SHA-256) is a parameter `digest: string -> string`. Every lemma
  holds for every digest, so none of them assumes the digest is injective.
- The file is an `Option<Table>`, where `None` means the file does not exist.
  A table is a set of column names and a sequence of rows. A row maps column
  names to cells, and a column missing from a row is pandas' NaN.
- The handler's precondition `WellFormedFile` says only that every cell lies in
  a column and that a frame without columns has no rows. A header-only file
  (columns but no rows) is admitted. `df.empty` holds for it, and `Append`
  replaces it with the new one-row frame as the `df_new` branch does. The
  frame `Table({}, [])` is also admitted as an existing file. That is where
  the model departs from the code (see "## Left out").
- The score dictionary `puanlar` has exactly the keys S1..S12
  (`Submission.IsScoreDict`), as the form's loop builds it
  (`Scoring.CollectScores`), so
  `list(puanlar.values())` is the twelve answers in form order.
- The clock (`datetime.now`) is the parameter `tarih`.

The code differs from a plain reading of the workflow in two places. The model
follows the code in both:

- The row stores the raw identity in a `Kimlik` column next to its
  `KimlikHash`.
- The empty-identity check `if not kimlik` tests the raw text, so an identity
  made only of whitespace passes the check and is hashed as the empty string
  (`Submission.WhitespaceIdentityAccepted`).

## Model

| member | source | states |
|---|---|---|
| Identity.LowerChar | teknostress.py:32 | lower-casing changes exactly the upper-case letters, yields no upper-case letter, and neither adds nor removes whitespace |
| Identity.Lower | teknostress.py:32 | `lower()` keeps the length and lower-cases each character in place |
| Identity.TrimStart | teknostress.py:32 | the result is a suffix of the input, everything dropped is whitespace, and the result does not start with whitespace |
| Identity.TrimEnd | teknostress.py:32 | the result is a prefix of the input, everything dropped is whitespace, and the result does not end with whitespace |
| Identity.StripIsTrimmedSlice | teknostress.py:32 | `strip()` returns a contiguous slice of the identity framed on both sides by whitespace only |
| Identity.Strip | teknostress.py:32 | `strip()` never lengthens the identity, and its result is empty or starts and ends with a non-space character |
| Identity.Normalize | teknostress.py:32 | `strip().lower()` never lengthens the identity, contains no upper-case letter, and neither starts nor ends with whitespace |
| Identity.Token | teknostress.py:31-32 | `hash_kimlik`: the digest of the normalised identity; what it promises is stated by the token lemmas below |
| Identity.TokenDependsOnlyOnNormalForm | teknostress.py:31-32 | two identities with the same `strip().lower()` get the same token, for every digest |
| Identity.StripIgnoresSurroundingSpace | teknostress.py:32 | adding whitespace on either side of an identity does not change its stripped form |
| Identity.StripLowerCommute | teknostress.py:32 | stripping and lower-casing commute |
| Identity.StripIdempotent | teknostress.py:32 | stripping twice is stripping once |
| Identity.NormalizeIdempotent | teknostress.py:32 | `strip().lower()` applied twice gives the same text as applied once |
| Identity.SameTokenUpToCaseAndSpace | teknostress.py:31-32 | identities that differ only in letter case and surrounding whitespace get the same token, for every digest |
| Identity.WhitespaceIdentityHashesEmpty | teknostress.py:31-32 | an all-whitespace identity normalises to the empty string, so its token is the digest of "" |
| Scoring.CodesDistinct | teknostress.py:81-94 | there are twelve question codes and no two are equal |
| Scoring.Sum | teknostress.py:101 | `sum(cevap_listesi)`: the total of the answers; its bounds are stated by SumBounds |
| Scoring.SumBounds | teknostress.py:101 | the sum of answers within 1..5 lies between once and five times their number |
| Scoring.Average | teknostress.py:101 | `sum(cevap_listesi) / len(cevap_listesi)` on the twelve answers; its bounds are stated by AverageBounds |
| Scoring.AverageBounds | teknostress.py:96-101 | the average of twelve slider answers lies in [1, 5] |
| Scoring.Classify | teknostress.py:128-136 | Düşük iff average < 2.5, Orta iff 2.5 <= average < 3.5, Yüksek iff average >= 3.5 |
| Scoring.LevelMatchesScoreSum | teknostress.py:128-136 | on twelve answers the classifier agrees with the integer thresholds 30 and 42 on the sum |
| Scoring.ClassifyMonotonic | teknostress.py:128-136 | a higher average never gives a lower level |
| Scoring.Level.Label | teknostress.py:128-136 | the Düzey text of each level, "Düşük", "Orta" or "Yüksek", is never empty |
| Scoring.LabelInjective | teknostress.py:128-136 | the three Düzey labels are distinct, so the stored label determines the level |
| Scoring.CollectScores | teknostress.py:96-98 | the loop builds a dictionary keyed by exactly S1..S12, each key holding its slider's answer |
| Scoring.AnswerList | teknostress.py:100 | `list(puanlar.values())` is the twelve answers in form order |
| Store.Load | teknostress.py:113-116 | a missing file reads as the empty frame, and an existing file reads as exactly its table |
| Store.CountText | teknostress.py:119 | the count of matching rows never exceeds the number of rows |
| Store.PriorCount | teknostress.py:118-121 | a frame without a KimlikHash column counts 0 prior submissions |
| Store.CountTextAppend | teknostress.py:119 | one more row adds one to the count exactly when it holds the value |
| Store.CountTextWithoutColumn | teknostress.py:118-121 | rows lacking the column are never counted |
| Store.PriorCountIsRowCount | teknostress.py:118-121 | in a well-formed frame the column guard agrees with counting the matching rows |
| Store.IsEmpty | teknostress.py:164 | `df.empty`: the frame has no rows or no columns |
| Store.Append | teknostress.py:163-167 | the result is the old rows followed by the new row and stays well formed; a non-empty frame keeps its columns and gains the row's own, and an empty frame (even with a header) is replaced by the row's columns alone |
| Store.AppendCount | teknostress.py:163-168 | appending a row raises its own token's count by one and leaves every other token's count unchanged |
| Store.Tally | teknostress.py:190 | `value_counts().to_dict()`: every value listed has a count between 1 and the number of rows |
| Store.TallyCounts | teknostress.py:190 | `value_counts()` lists exactly the values that occur, each with its number of rows |
| Store.AdminSummary | teknostress.py:179-192 | a missing file gives the warning; otherwise the participant count is the row count; a frame without an Ortalama column stops there (NoMean, because the general mean raises at line 187); with one, the gender distribution appears iff there is a Cinsiyet column |
| Store.AdminGenderCounts | teknostress.py:187-192 | when the panel reaches the distribution (the file has Ortalama and Cinsiyet columns), it gives each gender the number of rows recorded with it |
| Submission.FormCells | teknostress.py:147-155 | the nine form columns of `data`, each holding its field's text |
| Submission.FixedCells | teknostress.py:143-158 | the `data` dictionary before the item scores are added |
| Submission.FixedCellsColumns | teknostress.py:143-158 | `data` has exactly the fourteen fixed columns |
| Submission.NewRow | teknostress.py:143-161 | the appended row has a Tarih column |
| Submission.NewRowForm | teknostress.py:144-155 | the row holds the time stamp in Tarih and each of the nine form answers unchanged under its column, including the gender in Cinsiyet |
| Submission.NewRowColumns | teknostress.py:143-161 | the row's columns are exactly the fourteen fixed ones and S1..S12 |
| Submission.Respond | teknostress.py:103-168 | a rejected submission leaves the file unchanged, and a saved one leaves the old rows followed by exactly the new row |
| Submission.AddItemColumns | teknostress.py:160-161 | the loop adds exactly the item columns S1..S12, each holding its answer, to the fixed columns |
| Submission.Submit | teknostress.py:103-168 | the step-by-step handler computes the response that `Respond` specifies |
| Submission.RespondGuards | teknostress.py:106-125 | missing identity iff the identity is empty; limit reached iff it is non-empty and its token already has `MaxKatilim` = 2 or more rows; saved iff neither |
| Submission.SavedOutcome | teknostress.py:128-139 | a saved submission shows the average of its answers and the level classified from it |
| Submission.SavedResult | teknostress.py:128-139 | a saved submission shows the average of its answers (within 1..5 for slider answers) and the level of that average, which equals the level of the integer sum |
| Submission.EmptyIdentityIgnoresDigest | teknostress.py:106-110 | an empty identity is rejected with the file unchanged before anything is hashed |
| Submission.WhitespaceIdentityAccepted | teknostress.py:106-110 | a non-empty all-whitespace identity passes the check and is stored under the digest of "" |
| Submission.NewRowIdentity | teknostress.py:143-146 | the row holds the raw identity in Kimlik and its token in KimlikHash |
| Submission.NewRowItems | teknostress.py:160-161 | the row holds each answer under its question code |
| Submission.NewRowScore | teknostress.py:156-157 | the row holds the average in Ortalama and the label of its level in Düzey |
| Submission.RespondCounts | teknostress.py:118-168 | after a press, a token's count rises by one iff the submission was saved under that token; all other counts are unchanged |
| Submission.LimitStep | teknostress.py:123-125 | raising one count that is below the limit by one keeps every count within the limit |
| Submission.RespondPreservesLimit | teknostress.py:118-168 | if no token has more than 2 rows before a press, none has after |
| Submission.RespondGrowth | teknostress.py:163-168 | the file gains exactly one row when saved and none when rejected; the old rows stay a prefix |
| Submission.RunInvariant | teknostress.py:103-168 | over any sequence of presses the file stays well formed and within the limit, gains one row per saved submission, and keeps its old rows as a prefix |
| Submission.FreshStoreStaysWithinLimit | teknostress.py:12 | from a missing file, no token ever reaches a third row |
| Submission.SavedFileShowsSummary | teknostress.py:163-192 | after a saved submission the file has an Ortalama column, so the admin panel shows its full summary with the new row counted |
| Submission.Uniform | teknostress.py:96-98 | a score dictionary with every answer equal holds all twelve codes |
| Submission.UniformAverage | teknostress.py:101-136 | twelve equal answers average to that answer: all 1s give Düşük, all 3s Orta and all 5s Yüksek |
| Submission.ThirdSubmissionRejected | teknostress.py:118-125 | starting from no file, two submissions under identities with the same normal form are saved and a third is rejected for the limit, with the file left at two rows |

## Left out

- The Streamlit interface: widgets, layout, messages, emoji and `st.stop()`. `st.stop()` is modelled as the end of the handler.
- CSV reading and writing. The model does not cover `read_csv` type inference or column order: a table's columns are a set.
- A zero-byte `veriler.csv`. `pd.read_csv` raises an error on it, so the handler and the admin panel stop. The model reads it as `Some(Table({}, []))`: `Respond` saves the row into a new one-row frame, and `AdminSummary` reports 0 participants. `to_csv` always writes a header, so only a file emptied by other means reaches this case.
- SHA-256 itself. It is a digest parameter, and no lemma depends on its injectivity or its hex format.
- `str.lower()` beyond ASCII, the Latin-1 capitals, Ğ and Ş. Every other character is left as it is. In particular, İ, which Python lowers to two characters, is not modelled.
- Python's floating-point average. The average is an exact `real`. With twelve integer answers the comparisons with 2.5 and 3.5 give the same verdicts, so the two-decimal display is not modelled.
- `datetime.now()`. The time stamp is the parameter `tarih`, and its format is not modelled.
- Two sessions racing on the same file. Presses are modelled as strictly sequential (`Submission.Run`).
- The admin password check, and the values of the admin panel's float means: the general average and the per-gender means and chart. Only the one failure that decides what the panel shows is modelled: the general mean raises when there is no Ortalama column (`Store.AdminSummary`).
- Submission.NewRow: its own contract states only that the row has a Tarih column. The row's contents are stated by `NewRowForm`, `NewRowIdentity`, `NewRowItems`, `NewRowScore` and `NewRowColumns`, and its place in the file by `Respond`.

# tag-genie compliance core in Dafny

tag-genie is a command-line tool for business-directory listings. Its `process`
command asks a zero-shot classifier for a category label for each listing. Its
`audit` command compares those predictions with the categories humans assigned
and reports agreement rates and "danger zone" rows: confident disagreements. Its
`clean` command applies a compliance policy to each row. The policy gives every
row one audit status (`AUTO_FIXED`, `VERIFIED` or `NEEDS_REVIEW`) and a final tag.

This project models the decision core of `main.py` and proves properties about it:

- **Taxonomy**: the two label tables, `TAG_MAP` (long label to comparison
  category) and `SHORT_TAG_MAP` (long label to final database tag), and their
  lookups. A lookup in `TAG_MAP` falls back to the raw label. A lookup in
  `SHORT_TAG_MAP` returns nothing for an unmapped label.
- **Text**: Python's `str.strip()`, over the characters `str.isspace()` accepts.
- **Rows**: how one CSV row is read. Both label columns are stripped. A missing or
  non-numeric confidence becomes 0.0, and the row is never skipped.
- **Classification**: `run_classification`. Blank text short-circuits to
  ("None of the above", 1.0). Otherwise the classifier, an arbitrary function
  parameter, gets the stripped text and the candidate list with the sentinel
  appended.
- **Audit**: the per-row buckets (agreement, confident agreement, confident
  disagreement, low confidence; they overlap). Also the counting loop with its
  ordered danger list, and the "first ten, then `...and N more`" listing.
- **Clean**: the precedence-ordered per-row policy, and the loop that writes each
  row with `Audit_Status`/`Final_Tag` and counts the statuses.
- **Report**: the two summary tables' counts and percentages, including the
  division by the row count (see Findings).
- **Counting**: a generic count of the elements of a sequence that satisfy a
  predicate. Every bucket and status counter in the model is specified by it; the
  `total` counters are the number of rows.

The `audit` and `clean` loops are methods with loop invariants. Each is proved
against a specification function of the rows: `Audit.RowBuckets` with
`Audit.DangerRows`, and `Clean.CleanAll`. The per-row decisions are pure functions.
The label tables are passed to the decision functions as a `Taxonomy.Tables`
value. The tool always uses `Taxonomy.Standard`, and the properties that depend on
the tables' shape are stated for every table satisfying `Taxonomy.WellFormed`,
which `Standard` is proved to satisfy.

## Model

| member | source | states |
|---|---|---|
| Taxonomy.ToComparisonForm | main.py:146 | The comparison form is the `TAG_MAP` entry of a mapped label and the label itself for any other label. |
| Taxonomy.ToFinalForm | main.py:229 | The final tag exists exactly when the label is a key of `SHORT_TAG_MAP`, and it is then the table's entry for that label (so one of the table's values). |
| Taxonomy.StandardWellFormed | main.py:26-44 | Both tables have the same five keys (four categories and the sentinel). The sentinel maps to "None" in both. No other label has the final tag "None" or "". |
| Text.Strip | main.py:139-140 | The stripped text is never longer than the input; its shape is `Text.StripSpec`. |
| Text.StripSpec | main.py:58 | `strip()` returns a contiguous slice of its input with no whitespace at either end, and only whitespace is cut on either side. |
| Text.StripEmptyIffBlank | main.py:58-59 | A stripped string is empty exactly when the original consists of whitespace only. |
| Text.StripIdempotent | main.py:58 | Stripping twice is stripping once. |
| Rows.Observe | main.py:141-144 | A missing or unparsable confidence is read as 0.0; a parsed one is used as it is. |
| Rows.ObserveTrimmed | main.py:139-140 | The original category and the predicted label, as compared, are the stripped `Category` and `Predicted_Tag` columns, so they carry no surrounding whitespace. |
| Classification.CandidateLabels | main.py:63 | The classifier's label list is the candidates in order followed by the sentinel. The sentinel's multiplicity grows by exactly one and no other label's changes. |
| Classification.RunClassification | main.py:56-69 | Whitespace-only text gives ("None of the above", 1.0). Any other text gives the classifier's first label and first score on the stripped text and the extended list, or an IndexError when the ranking is empty. |
| Classification.BlankTextIgnoresClassifier | main.py:58-60 | For blank text the result does not depend on the classifier at all, and it never fails. |
| Classification.PaddingIrrelevant | main.py:58-64 | Classifying the stripped text gives the same result as classifying the padded text. |
| Audit.AuditBuckets | main.py:146-163 | Agreement holds iff the original equals the comparison form of the prediction. Above 0.8 a row is exactly one of confident agreement and confident disagreement, and neither otherwise. Low confidence holds iff the confidence is below 0.5, and then neither confident bucket holds. |
| Audit.DangerRowOf | main.py:156-161 | A danger entry holds the row's name as read, the stripped original and predicted labels, and the confidence as read (0.0 when missing or not numeric). |
| Audit.DangerRows | main.py:154-161 | The danger list has one entry per confident disagreement. |
| Audit.DangerRowsSound | main.py:154-161 | Every danger entry has confidence above 0.8 and an original that differs from the comparison form of its prediction. |
| Audit.DangerRowsAppend | main.py:154-161 | Encounter order: the danger list of two files read one after the other is the first file's list followed by the second's. |
| Audit.Audit | main.py:131-163 | `total` is the number of rows. Each of the four counters is the number of rows in its bucket, and the danger list is `DangerRows` of the rows. The report satisfies the counter bounds of `ConsistentReport`, and the list's length equals the confident-disagreement counter. |
| Audit.AuditCountBounds | main.py:149-163 | For any rows: confident agreements ≤ agreements ≤ total, confident disagreements ≤ total − agreements, and low confidence ≤ total. |
| Audit.MissingConfidenceIsLow | main.py:141-163 | A row with a missing or non-numeric confidence is counted as low confidence and never as a confident agreement or disagreement. |
| Audit.DangerExamples | main.py:178-189 | No table for an empty danger list. Otherwise the first min(10, n) entries in order, plus a count of the rest that appears exactly when there are more than ten; shown plus rest is n. |
| Clean.StatusName | main.py:231-243 | The status column holds one of "AUTO_FIXED", "VERIFIED" and "NEEDS_REVIEW". |
| Clean.StatusNameInjective | main.py:231-243 | Distinct statuses are written as distinct texts. |
| Clean.MayOverride | main.py:230 | A missing final tag never overrides. A present one overrides exactly when it is neither "" nor "None", which is Python's truth test of `final_tag and final_tag != "None"`. |
| Clean.CleanDecision | main.py:226-245 | A row that is not auto-fixed keeps its original category. An auto-fixed row has confidence above 0.85, disagrees with the comparison form, has a mapped prediction, and takes that label's final tag, which is not "None". A row needing review has confidence below 0.5. |
| Clean.AutoFixedIff | main.py:228-233 | With well-formed tables, a row is auto-fixed iff its confidence exceeds 0.85, its original differs from the comparison form, and its prediction is a mapped label other than the sentinel. |
| Clean.NeedsReviewIff | main.py:228-241 | A row needs review iff its confidence is below 0.5; the auto-fix branch, which is tried first, can never apply there. |
| Clean.NoOverrideWithoutMappedLabel | main.py:229-237 | An unmapped prediction or the sentinel is never auto-fixed. Above 0.85 with a mismatch, such a row is VERIFIED with its original category. |
| Clean.FinalTagOrigin | main.py:229-245 | The final tag is either the original category or a value of `SHORT_TAG_MAP` other than "None". |
| Clean.CleanRow | main.py:218-245 | The written row keeps the columns the pass reads (`Name`, `Category`, `Predicted_Tag` and the parsed confidence), and its final tag is the trimmed original unless the row is auto-fixed. |
| Clean.CleanRowDecided | main.py:226-245 | The written `Audit_Status` and `Final_Tag` are the status and final tag the policy decides for the row as read. |
| Clean.MissingConfidenceNeedsReview | main.py:221-241 | A row with a missing or non-numeric confidence needs review and keeps its original category. |
| Clean.CleanAll | main.py:217-246 | The cleaned file has exactly as many rows as the input. |
| Clean.CleanAllRowwise | main.py:217-246 | Row k of the cleaned file is row k of the input, cleaned on its own. |
| Clean.Clean | main.py:206-246 | The written rows are `CleanAll` of the input. `total` is the number of rows, each status counter is the number of written rows with that status, and the three counters add up to `total`. |
| Clean.StatusCountsSnoc | main.py:217-245 | Writing one more row bumps the counter of its status and no other. |
| Clean.StatusCountsPartition | main.py:217-245 | Every written row has exactly one status, so the three status counts add up to the number of rows. |
| Clean.CleanAgreesWithAudit | main.py:226-241 | On the same rows, row by row: every auto-fixed row is in the audit's danger-zone bucket, and a row needs review exactly when it is in the audit's low-confidence bucket. Hence auto-fixed ≤ danger zone, and the needs-review and low-confidence counts are equal. |
| Clean.ScenarioAutoFix | main.py:226-233 | "Real Estate" predicted as the legal-services label at 0.90 is AUTO_FIXED to "Legal". |
| Clean.ScenarioSentinelBlocked | main.py:229-237 | "Real Estate" predicted as "None of the above" at 0.95 is VERIFIED and keeps "Real Estate". |
| Clean.ScenarioNeedsReview | main.py:238-241 | "Finance & Tax" predicted as the accounting label at 0.40 needs review even though it agrees. |
| Report.PercentAsWritten | main.py:172-175 | The unguarded share `(count / total) * 100` fails with ZeroDivisionError exactly when `total` is 0; otherwise share × total = count × 100. |
| Report.EmptyFileDividesByZero | main.py:172 | For a file with a header and no rows, the first percentage of each summary table raises ZeroDivisionError: the audit table's at main.py:172 and the clean table's at main.py:255. |
| Report.Percent | main.py:254-257 | The guarded share is 0 for an empty file; otherwise share × total = count × 100, and it lies in [0, 100] when count ≤ total. |
| Report.PercentAgreesWhereDefined | main.py:172-175 | Whenever the unguarded division is defined, the guarded share equals it. |
| Report.AuditSummary | main.py:171-175 | Five lines: "Total Rows" at 100%, then agreements, confident agreements, low confidence and confident disagreements, in that order, each line with its counter and that counter's share of the total. Every count is at most the total, every share lies in [0, 100], and every share is 0 for an empty file. |
| Report.CleanSummary | main.py:254-257 | Four lines: "Total Rows" at 100%, then verified, needs review and auto-fixed, in that order, each line with its counter and that counter's share of the total. Every count is at most the total and every share lies in [0, 100]. |
| Report.PercentAdditive | main.py:254-257 | Shares of the same total add up like their counts. |
| Report.StatusSharesSumTo100 | main.py:254-257 | For a non-empty file, the verified, needs-review and auto-fixed shares add up to exactly 100%. |

## Left out

- The Typer command line, `csv.DictReader`/`DictWriter` file handling and the
  `FileNotFoundError` exits (main.py:71-120, 191-193, 260-262) are I/O. A file is
  modelled as the sequence of its rows, and the written file as the sequence of
  cleaned rows.
- Rich tables, colours, progress bars and console messages are not modelled. This
  includes the display-only name truncation and label rewriting at main.py:186 and
  the `.1f`/`.2f` number formatting. Shares are exact reals.
- The transformers pipeline and its `lru_cache` loading (main.py:50-54) are
  foreign code. The classifier is an arbitrary function parameter.
- `process_csv`'s per-row exception handling, which writes "ERROR" and "0.0"
  (main.py:104-111), depends on exceptions raised inside the classifier library.
  `Classification.RunClassification` models only the IndexError of an empty
  ranking. The parsing of the `--tags` option (main.py:80) is not part of this
  model.
- Python `float()` parsing is not modelled. The parsed confidence is an
  `Option<real>`, `None` when the column is absent or not numeric. NaN,
  infinities and binary64 rounding are not represented.
- A CSV row shorter than the header makes `csv.DictReader` yield `None` for the
  missing fields, and `None.strip()` then raises. Rows are modelled with every
  column present or absent as a whole.
- A danger row whose name column is absent would fail in the display truncation
  at main.py:186. This is display code and is not modelled.
- Updating the row dictionary in place (main.py:230-244) is modelled as producing
  a new output row that carries the modelled input row plus the status and final
  tag. Aliasing of the row dictionary is not represented.
- Clean.CleanRow: keeps only the four columns a `Rows.Row` holds. The tool's
  `DictWriter` (main.py:213, 246) writes every input column back as raw text, and
  the model does not capture three things about that:
  - The confidence is kept as parsed, so "0.90" is held as 0.9, and a
    non-numeric value and an absent column are both `None`.
  - Columns the passes do not read, such as an address, are not represented.
  - Input values already present in `Audit_Status` or `Final_Tag` columns are
    overwritten by main.py:231-244; the model has no such input columns.
- Report.AuditSummary, Report.CleanSummary: use the guarded share `Report.Percent`.
  On a file with no data rows the tool raises ZeroDivisionError at main.py:172 and
  main.py:255 before either table is printed (see Findings).
- Report.PercentAdditive, Report.StatusSharesSumTo100: hold of the exact real
  shares only. The tool computes binary64 shares and prints them with one decimal,
  so a file with one row of each status prints 33.3% three times (99.9%).
- Taxonomy.ToComparisonForm, Taxonomy.ToFinalForm: the tables are parameters
  rather than the module constants. The tool always passes `Taxonomy.Standard`,
  and the policy lemmas that depend on the tables' shape require
  `Taxonomy.WellFormed`.

## Findings

Both summary tables divide by the row count without a guard. A file with no data
rows evidently should give a report of 0% for every metric rather than crash. The
model logs the division as written and uses the guarded share everywhere else.

| source | as written | input that shows it | evidently intended | confidence | as-written member | corrected member |
|---|---|---|---|---|---|---|
| main.py:172-175, main.py:255-257 | `(count/total)*100` with no check of `total` | a CSV file with a header line and no data rows (`total == 0`) raises ZeroDivisionError, and neither summary table is printed | a zero-row file reports 0% for every metric | not executed | Report.EmptyFileDividesByZero | Report.Percent |

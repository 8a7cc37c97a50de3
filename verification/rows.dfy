/** One row of a classified CSV file as the audit and clean passes read it. */
module Rows {
  import opened Wrappers
  import opened Text

  /** Confidence above which a row is "high confidence" in the audit. */
  const HighConfidence: real := 0.8
  /** Confidence above which the clean pass may override the original category. */
  const AutoFixConfidence: real := 0.85
  /** Confidence below which a row is "low confidence" in both passes. */
  const LowConfidence: real := 0.5

  /** The columns the two passes read. `category` and `predictedTag` are "" when the
      column is absent from the header; `name` is `None` then. `confidenceScore` is the
      column parsed as a number, `None` when it is absent or not numeric. */
  datatype Row = Row(name: Option<string>, category: string, predictedTag: string,
                     confidenceScore: Option<real>)

  /** What one pass iteration works with: trimmed original category and predicted
      label, and the confidence with the 0.0 default applied. */
  datatype Observation = Observation(original: string, predicted: string, confidence: real)

  /** The per-row read: both text columns stripped, a missing or unparsable
      confidence replaced by 0.0 (the row is never skipped). */
  function Observe(row: Row): (o: Observation)
    ensures row.confidenceScore.None? ==> o.confidence == 0.0
    ensures row.confidenceScore.Some? ==> o.confidence == row.confidenceScore.value
  {
    Observation(Strip(row.category), Strip(row.predictedTag), row.confidenceScore.GetOr(0.0))
  }

  /** The original and predicted labels of an observation are the stripped columns,
      so they are trimmed whatever padding the file had. */
  lemma ObserveTrimmed(row: Row)
    ensures Observe(row).original == Strip(row.category) && Observe(row).predicted == Strip(row.predictedTag)
    ensures IsTrimmed(Observe(row).original) && IsTrimmed(Observe(row).predicted)
  {
    StripSpec(row.category);
    StripSpec(row.predictedTag);
  }
}

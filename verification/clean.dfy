/** The `clean` command: a precedence-ordered, first-match-wins policy that gives
    every row exactly one audit status and a final tag, and counts the statuses. */
module Clean {
  import opened Wrappers
  import opened Taxonomy
  import opened Counting
  import opened Rows
  import Audit

  datatype Status = AutoFixed | Verified | NeedsReview

  /** The text written to the `Audit_Status` column. */
  function StatusName(s: Status): (name: string)
    ensures name in {"AUTO_FIXED", "VERIFIED", "NEEDS_REVIEW"}
  {
    match s
    case AutoFixed => "AUTO_FIXED"
    case Verified => "VERIFIED"
    case NeedsReview => "NEEDS_REVIEW"
  }

  /** Distinct statuses are written as distinct texts. */
  lemma StatusNameInjective(s: Status, u: Status)
    ensures StatusName(s) == StatusName(u) ==> s == u
  {
  }

  /** The `Audit_Status` and `Final_Tag` values decided for one row. */
  datatype Decision = Decision(status: Status, finalTag: string)

  /** `final_tag and final_tag != "None"`: a final tag may override the original only
      when it exists, is not the empty string and is not the token "None". */
  function MayOverride(finalTag: Option<string>): (ok: bool)
    ensures finalTag.None? ==> !ok
    ensures finalTag.Some? ==> (ok <==> finalTag.value !in {"", "None"})
  {
    finalTag.Some? && finalTag.value != "" && finalTag.value != "None"
  }

  /** The per-row policy. A row that is not auto-fixed keeps its (trimmed) original
      category; an auto-fixed row takes the final tag of its predicted label, never
      "None"; only rows below the low-confidence threshold need review. */
  function CleanDecision(t: Tables, o: Observation): (d: Decision)
    ensures d.status != AutoFixed ==> d.finalTag == o.original
    ensures d.status == AutoFixed ==>
      && o.confidence > AutoFixConfidence && o.original != ToComparisonForm(t, o.predicted)
      && o.predicted in t.final && d.finalTag == t.final[o.predicted] && d.finalTag != "None"
    ensures d.status == NeedsReview ==> o.confidence < LowConfidence
  {
    var predictedShort := ToComparisonForm(t, o.predicted);
    if o.confidence > AutoFixConfidence && o.original != predictedShort then
      var finalTag := ToFinalForm(t, o.predicted);
      if MayOverride(finalTag) then Decision(AutoFixed, finalTag.value)
      else Decision(Verified, o.original)
    else if o.confidence < LowConfidence then Decision(NeedsReview, o.original)
    else Decision(Verified, o.original)
  }

  /** With well-formed tables, a row is auto-fixed exactly when its confidence exceeds
      0.85, its original differs from the comparison form of the prediction, and the
      prediction is a mapped label other than the sentinel. */
  lemma AutoFixedIff(t: Tables, o: Observation)
    requires WellFormed(t)
    ensures CleanDecision(t, o).status == AutoFixed <==>
      && o.confidence > AutoFixConfidence
      && o.original != ToComparisonForm(t, o.predicted)
      && o.predicted in t.final
      && o.predicted != NoneTag
  {
  }

  /** A row needs review exactly when its confidence is below 0.5: the auto-fix branch,
      tried first, never applies there. */
  lemma NeedsReviewIff(t: Tables, o: Observation)
    ensures CleanDecision(t, o).status == NeedsReview <==> o.confidence < LowConfidence
  {
  }

  /** An unmapped prediction or the sentinel never overrides; above 0.85 with a
      mismatch such a row is VERIFIED and keeps its original category. */
  lemma NoOverrideWithoutMappedLabel(t: Tables, o: Observation)
    requires WellFormed(t)
    requires o.predicted !in t.final || o.predicted == NoneTag
    ensures CleanDecision(t, o).status != AutoFixed
    ensures o.confidence > AutoFixConfidence && o.original != ToComparisonForm(t, o.predicted) ==>
      CleanDecision(t, o) == Decision(Verified, o.original)
  {
    AutoFixedIff(t, o);
  }

  /** The final tag is either the original category or a final tag from the table
      other than "None". */
  lemma FinalTagOrigin(t: Tables, o: Observation)
    ensures CleanDecision(t, o).finalTag == o.original
         || CleanDecision(t, o).finalTag in t.final.Values - {"None"}
  {
  }

  /** A row as the clean pass writes it: the input columns unchanged, plus
      `Audit_Status` and `Final_Tag`. */
  datatype CleanedRow = CleanedRow(row: Row, status: Status, finalTag: string)

  function CleanRow(t: Tables, row: Row): (c: CleanedRow)
    ensures c.row == row
    ensures c.status != AutoFixed ==> c.finalTag == Observe(row).original
  {
    var d := CleanDecision(t, Observe(row));
    CleanedRow(row, d.status, d.finalTag)
  }

  /** The written status and final tag are the ones the policy decides for the row
      as read. */
  lemma CleanRowDecided(t: Tables, row: Row)
    ensures CleanRow(t, row).status == CleanDecision(t, Observe(row)).status
    ensures CleanRow(t, row).finalTag == CleanDecision(t, Observe(row)).finalTag
  {
  }

  /** A row whose confidence is missing or not numeric is read as 0.0 and needs review,
      keeping its original category. */
  lemma MissingConfidenceNeedsReview(t: Tables, row: Row)
    requires row.confidenceScore.None?
    ensures CleanRow(t, row).status == NeedsReview
    ensures CleanRow(t, row).finalTag == Observe(row).original
  {
  }

  predicate IsAutoFixed(c: CleanedRow) { c.status == AutoFixed }
  predicate IsVerified(c: CleanedRow) { c.status == Verified }
  predicate IsNeedsReview(c: CleanedRow) { c.status == NeedsReview }

  /** The `stats` dictionary. */
  datatype Stats = Stats(autoFixed: nat, verified: nat, lowConf: nat, total: nat)

  /** The cleaned file: every input row with its status and final tag, in order. */
  function CleanAll(t: Tables, rows: seq<Row>): (out: seq<CleanedRow>)
    ensures |out| == |rows|
  {
    if rows == [] then []
    else CleanAll(t, rows[..|rows| - 1]) + [CleanRow(t, rows[|rows| - 1])]
  }

  /** Row `k` of the cleaned file is row `k` of the input, cleaned on its own. */
  lemma {:induction false} CleanAllRowwise(t: Tables, rows: seq<Row>)
    ensures forall k :: 0 <= k < |rows| ==> CleanAll(t, rows)[k] == CleanRow(t, rows[k])
  {
    if rows != [] {
      var init := rows[..|rows| - 1];
      CleanAllRowwise(t, init);
      assert forall k :: 0 <= k < |init| ==> rows[k] == init[k];
    }
  }

  /** Cleaning one more row appends its cleaned form. */
  lemma CleanAllStep(t: Tables, rows: seq<Row>, i: nat)
    requires i < |rows|
    ensures CleanAll(t, rows[..i + 1]) == CleanAll(t, rows[..i]) + [CleanRow(t, rows[i])]
  {
    assert rows[..i + 1][..i] == rows[..i];
  }

  /** The loop of `clean`: every row is written once, with its decision, and
      increments exactly one status counter. */
  method Clean(t: Tables, rows: seq<Row>) returns (out: seq<CleanedRow>, stats: Stats)
    ensures out == CleanAll(t, rows)
    ensures stats.total == |rows|
    ensures stats.autoFixed == Count(out, IsAutoFixed)
    ensures stats.verified == Count(out, IsVerified)
    ensures stats.lowConf == Count(out, IsNeedsReview)
    ensures stats.autoFixed + stats.verified + stats.lowConf == stats.total
  {
    stats := Stats(0, 0, 0, 0);
    out := [];
    var i := 0;
    while i < |rows|
      invariant 0 <= i <= |rows| && stats.total == i
      invariant out == CleanAll(t, rows[..i])
      invariant stats.autoFixed == Count(out, IsAutoFixed)
      invariant stats.verified == Count(out, IsVerified)
      invariant stats.lowConf == Count(out, IsNeedsReview)
    {
      var row := rows[i];
      stats := stats.(total := stats.total + 1);
      var cleaned := CleanRow(t, row);
      match cleaned.status {
        case AutoFixed => stats := stats.(autoFixed := stats.autoFixed + 1);
        case Verified => stats := stats.(verified := stats.verified + 1);
        case NeedsReview => stats := stats.(lowConf := stats.lowConf + 1);
      }
      CleanAllStep(t, rows, i);
      StatusCountsSnoc(out, cleaned);
      out := out + [cleaned];
      i := i + 1;
    }
    assert rows[..i] == rows;
    StatusCountsPartition(out);
  }

  /** Writing one more row bumps the counter of its status and no other. */
  lemma StatusCountsSnoc(out: seq<CleanedRow>, c: CleanedRow)
    ensures Count(out + [c], IsAutoFixed) == Count(out, IsAutoFixed) + (if c.status == AutoFixed then 1 else 0)
    ensures Count(out + [c], IsVerified) == Count(out, IsVerified) + (if c.status == Verified then 1 else 0)
    ensures Count(out + [c], IsNeedsReview) == Count(out, IsNeedsReview) + (if c.status == NeedsReview then 1 else 0)
  {
    CountSnoc(out, c, IsAutoFixed);
    CountSnoc(out, c, IsVerified);
    CountSnoc(out, c, IsNeedsReview);
  }

  /** Every row of a file gets exactly one of the three statuses, so their counts add up. */
  lemma StatusCountsPartition(out: seq<CleanedRow>)
    ensures Count(out, IsAutoFixed) + Count(out, IsVerified) + Count(out, IsNeedsReview) == |out|
  {
    CountPartition(out, IsAutoFixed, IsVerified, IsNeedsReview);
  }

  /** The two passes agree on the same rows: every auto-fixed row is a danger-zone row
      of the audit, and the rows needing review are exactly the audit's low-confidence
      rows. */
  lemma CleanAgreesWithAudit(t: Tables, rows: seq<Row>)
    ensures Count(CleanAll(t, rows), IsAutoFixed) <= Count(Audit.RowBuckets(t, rows), Audit.IsDanger)
    ensures Count(CleanAll(t, rows), IsNeedsReview) == Count(Audit.RowBuckets(t, rows), Audit.IsLowConf)
    ensures forall k :: 0 <= k < |rows| && CleanAll(t, rows)[k].status == AutoFixed ==>
      Audit.RowBuckets(t, rows)[k].highConfDisagreement
    ensures forall k :: 0 <= k < |rows| ==>
      (CleanAll(t, rows)[k].status == NeedsReview <==> Audit.RowBuckets(t, rows)[k].lowConf)
  {
    var out, bs := CleanAll(t, rows), Audit.RowBuckets(t, rows);
    CleanAllRowwise(t, rows);
    CountPointwise(out, bs, IsAutoFixed, Audit.IsDanger);
    CountPointwise(out, bs, IsNeedsReview, Audit.IsLowConf);
    CountPointwise(bs, out, Audit.IsLowConf, IsNeedsReview);
  }

  /** A very confident disagreement with a mapped label overrides the original:
      "Real Estate" predicted as the legal-services label at 0.90 becomes "Legal". */
  lemma ScenarioAutoFix()
    ensures CleanDecision(Standard, Observation("Real Estate", LegalLong, 0.90)) == Decision(AutoFixed, "Legal")
  {
  }

  /** A very confident "None of the above" never overrides: the row is VERIFIED and
      keeps "Real Estate". */
  lemma ScenarioSentinelBlocked()
    ensures CleanDecision(Standard, Observation("Real Estate", NoneTag, 0.95)) == Decision(Verified, "Real Estate")
  {
  }

  /** An agreeing but unsure prediction is sent for review with the original kept. */
  lemma ScenarioNeedsReview()
    ensures CleanDecision(Standard, Observation("Finance & Tax", FinanceLong, 0.40))
         == Decision(NeedsReview, "Finance & Tax")
  {
  }
}

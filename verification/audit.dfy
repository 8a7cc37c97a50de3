/** The `audit` command: a read-only pass over classified rows that counts
    agreements between the human category and the prediction, and collects the
    high-confidence disagreements (the "danger zone"). */
module Audit {
  import opened Wrappers
  import opened Taxonomy
  import opened Counting
  import opened Rows
  import Text

  /** The buckets one row falls into; they overlap (a row may be a disagreement and
      low confidence at once). */
  datatype Buckets = Buckets(agreement: bool, highConfAgreement: bool,
                             highConfDisagreement: bool, lowConf: bool)

  /** One row's contribution to the counters: agreement is equality of the original
      with the comparison form of the prediction; above 0.8 a row is a confident
      agreement or a confident disagreement; below 0.5 it is also low confidence. */
  function AuditBuckets(t: Tables, o: Observation): (b: Buckets)
    ensures b.agreement <==> o.original == ToComparisonForm(t, o.predicted)
    ensures b.highConfAgreement ==> b.agreement
    ensures b.highConfDisagreement ==> !b.agreement
    ensures (b.highConfAgreement || b.highConfDisagreement) <==> o.confidence > HighConfidence
    ensures b.lowConf <==> o.confidence < LowConfidence
    ensures b.lowConf ==> !b.highConfAgreement && !b.highConfDisagreement
  {
    var predictedShort := ToComparisonForm(t, o.predicted);
    var isMatch := o.original == predictedShort;
    Buckets(isMatch,
            isMatch && o.confidence > HighConfidence,
            !isMatch && o.confidence > HighConfidence,
            o.confidence < LowConfidence)
  }

  /** The buckets of every row, in order. */
  function RowBuckets(t: Tables, rows: seq<Row>): (bs: seq<Buckets>)
    ensures |bs| == |rows|
  {
    seq(|rows|, k requires 0 <= k < |rows| => AuditBuckets(t, Observe(rows[k])))
  }

  predicate IsAgreement(b: Buckets) { b.agreement }
  predicate IsHighConfAgreement(b: Buckets) { b.highConfAgreement }
  predicate IsDanger(b: Buckets) { b.highConfDisagreement }
  predicate IsLowConf(b: Buckets) { b.lowConf }

  /** A danger-zone entry: the name as read, the trimmed original and predicted
      labels, and the confidence. */
  datatype DangerRow = DangerRow(name: Option<string>, original: string, predicted: string, conf: real)

  function DangerRowOf(row: Row): (d: DangerRow)
    ensures d.name == row.name
    ensures d.original == Text.Strip(row.category) && d.predicted == Text.Strip(row.predictedTag)
    ensures d.conf == Observe(row).confidence
  {
    var o := Observe(row);
    DangerRow(row.name, o.original, o.predicted, o.confidence)
  }

  /** The danger-zone rows of `rows`, in the order they are met; one per confident
      disagreement. */
  function DangerRows(t: Tables, rows: seq<Row>): (d: seq<DangerRow>)
    ensures |d| == Count(RowBuckets(t, rows), IsDanger)
  {
    if rows == [] then []
    else
      var n := |rows| - 1;
      assert RowBuckets(t, rows[..n]) == RowBuckets(t, rows)[..n];
      DangerRows(t, rows[..n])
        + (if AuditBuckets(t, Observe(rows[n])).highConfDisagreement then [DangerRowOf(rows[n])] else [])
  }

  /** Every listed danger row is a confident disagreement. */
  lemma {:induction false} DangerRowsSound(t: Tables, rows: seq<Row>)
    ensures forall d :: d in DangerRows(t, rows) ==>
      d.conf > HighConfidence && d.original != ToComparisonForm(t, d.predicted)
  {
    if rows != [] {
      DangerRowsSound(t, rows[..|rows| - 1]);
    }
  }

  /** Encounter order: the danger rows of a concatenation are those of the first
      part followed by those of the second. */
  lemma {:induction false} DangerRowsAppend(t: Tables, a: seq<Row>, b: seq<Row>)
    ensures DangerRows(t, a + b) == DangerRows(t, a) + DangerRows(t, b)
  {
    if b == [] {
      assert a + b == a;
    } else {
      assert (a + b)[..|a + b| - 1] == a + b[..|b| - 1];
      DangerRowsAppend(t, a, b[..|b| - 1]);
    }
  }

  /** One more row adds one to each bucket counter whose flag it raises, and to no other. */
  lemma BucketCountsStep(bs: seq<Buckets>, i: nat)
    requires i < |bs|
    ensures Count(bs[..i + 1], IsAgreement) == Count(bs[..i], IsAgreement) + (if bs[i].agreement then 1 else 0)
    ensures Count(bs[..i + 1], IsHighConfAgreement) ==
      Count(bs[..i], IsHighConfAgreement) + (if bs[i].highConfAgreement then 1 else 0)
    ensures Count(bs[..i + 1], IsDanger) == Count(bs[..i], IsDanger) + (if bs[i].highConfDisagreement then 1 else 0)
    ensures Count(bs[..i + 1], IsLowConf) == Count(bs[..i], IsLowConf) + (if bs[i].lowConf then 1 else 0)
  {
    CountStep(bs, i, IsAgreement);
    CountStep(bs, i, IsHighConfAgreement);
    CountStep(bs, i, IsDanger);
    CountStep(bs, i, IsLowConf);
  }

  /** One more row appends its danger-row entry exactly when it is a confident
      disagreement. */
  lemma DangerRowsStep(t: Tables, rows: seq<Row>, i: nat)
    requires i < |rows|
    ensures AuditBuckets(t, Observe(rows[i])).highConfDisagreement ==>
      DangerRows(t, rows[..i + 1]) == DangerRows(t, rows[..i]) + [DangerRowOf(rows[i])]
    ensures !AuditBuckets(t, Observe(rows[i])).highConfDisagreement ==>
      DangerRows(t, rows[..i + 1]) == DangerRows(t, rows[..i])
  {
    assert rows[..i + 1][..i] == rows[..i];
    assert DangerRows(t, rows[..i]) + [] == DangerRows(t, rows[..i]);
  }

  /** The counters and the danger list after a pass. */
  datatype Report = Report(total: nat, agreements: nat, highConfAgreements: nat,
                           highConfDisagreements: nat, lowConf: nat, dangerRows: seq<DangerRow>)

  /** The relations between the counters. */
  predicate ConsistentReport(r: Report) {
    && r.highConfAgreements <= r.agreements <= r.total
    && r.highConfDisagreements <= r.total - r.agreements
    && r.lowConf <= r.total
    && |r.dangerRows| == r.highConfDisagreements
  }

  /** The loop of `audit`: every row is counted once in `total` and in each bucket
      it falls into; danger-zone rows are appended in order. */
  method Audit(t: Tables, rows: seq<Row>) returns (report: Report)
    ensures report.total == |rows|
    ensures report.agreements == Count(RowBuckets(t, rows), IsAgreement)
    ensures report.highConfAgreements == Count(RowBuckets(t, rows), IsHighConfAgreement)
    ensures report.highConfDisagreements == Count(RowBuckets(t, rows), IsDanger)
    ensures report.lowConf == Count(RowBuckets(t, rows), IsLowConf)
    ensures report.dangerRows == DangerRows(t, rows)
    ensures ConsistentReport(report)
  {
    ghost var bs := RowBuckets(t, rows);
    var total, agreements, highConfAgreements, highConfDisagreements, lowConf := 0, 0, 0, 0, 0;
    var dangerRows: seq<DangerRow> := [];
    var i := 0;
    while i < |rows|
      invariant 0 <= i <= |rows| && total == i
      invariant agreements == Count(bs[..i], IsAgreement)
      invariant highConfAgreements == Count(bs[..i], IsHighConfAgreement)
      invariant highConfDisagreements == Count(bs[..i], IsDanger)
      invariant lowConf == Count(bs[..i], IsLowConf)
      invariant dangerRows == DangerRows(t, rows[..i])
    {
      var row := rows[i];
      total := total + 1;
      var o := Observe(row);
      var predictedShort := ToComparisonForm(t, o.predicted);
      var isMatch := o.original == predictedShort;
      assert bs[i] == AuditBuckets(t, o);
      BucketCountsStep(bs, i);
      DangerRowsStep(t, rows, i);
      if isMatch {
        agreements := agreements + 1;
        if o.confidence > HighConfidence {
          highConfAgreements := highConfAgreements + 1;
        }
      } else {
        if o.confidence > HighConfidence {
          highConfDisagreements := highConfDisagreements + 1;
          dangerRows := dangerRows + [DangerRowOf(row)];
        }
      }
      if o.confidence < LowConfidence {
        lowConf := lowConf + 1;
      }
      i := i + 1;
    }
    assert rows[..i] == rows && bs[..i] == bs;
    AuditCountBounds(t, rows);
    report := Report(total, agreements, highConfAgreements, highConfDisagreements, lowConf, dangerRows);
  }

  /** The bounds between the counters follow from the bucket definitions alone, for
      any sequence of rows (in particular for every prefix the loop has processed). */
  lemma AuditCountBounds(t: Tables, rows: seq<Row>)
    ensures var bs := RowBuckets(t, rows);
      && Count(bs, IsHighConfAgreement) <= Count(bs, IsAgreement) <= |rows|
      && Count(bs, IsDanger) + Count(bs, IsAgreement) <= |rows|
      && Count(bs, IsLowConf) <= |rows|
  {
    var bs := RowBuckets(t, rows);
    CountPointwise(bs, bs, IsHighConfAgreement, IsAgreement);
    CountDisjoint(bs, IsDanger, IsAgreement);
  }

  /** A row whose confidence is missing or not numeric is read as 0.0: it is low
      confidence and never high confidence. */
  lemma MissingConfidenceIsLow(t: Tables, row: Row)
    requires row.confidenceScore.None?
    ensures var b := AuditBuckets(t, Observe(row));
      b.lowConf && !b.highConfAgreement && !b.highConfDisagreement
  {
  }

  /** What the report prints below the summary: at most the first ten danger rows,
      and how many more there were when there were more than ten. */
  datatype DangerListing = DangerListing(shown: seq<DangerRow>, more: Option<nat>)

  const MaxListed: nat := 10

  /** The danger-zone table: nothing when the list is empty, otherwise
      `danger_rows[:10]` and, past ten rows, the count of the rest. */
  function DangerExamples(d: seq<DangerRow>): (listing: Option<DangerListing>)
    ensures listing.None? <==> d == []
    ensures listing.Some? ==>
      && |listing.value.shown| == (if |d| < MaxListed then |d| else MaxListed)
      && listing.value.shown == d[..|listing.value.shown|]
      && (listing.value.more.Some? <==> |d| > MaxListed)
      && |listing.value.shown| + listing.value.more.GetOr(0) == |d|
  {
    if d == [] then None
    else
      var shown := if |d| <= MaxListed then d else d[..MaxListed];
      Some(DangerListing(shown, if |d| > MaxListed then Some(|d| - MaxListed) else None))
  }
}

/** The summary tables printed after the audit and clean passes: one line per
    metric with its count and its share of all rows, in percent. Number formatting
    and colours are not modelled; the shares are exact. */
module Report {
  import opened Wrappers
  import Audit
  import Clean

  /** Python raises ZeroDivisionError on `x / 0`. */
  datatype ArithError = ZeroDivisionError

  /** `(count / total) * 100` as the source computes it, with no guard for an empty file. */
  function PercentAsWritten(count: nat, total: nat): (r: Result<real, ArithError>)
    ensures r.Failure? <==> total == 0
    ensures r.Success? ==> r.value * (total as real) == (count as real) * 100.0
  {
    if total == 0 then Failure(ZeroDivisionError)
    else Success((count as real / total as real) * 100.0)
  }

  /** A file with a header and no rows makes the first percentage of either report
      divide by zero, so neither summary table is printed. */
  lemma EmptyFileDividesByZero(r: Audit.Report, stats: Clean.Stats)
    requires r.total == 0 && stats.total == 0
    ensures PercentAsWritten(r.agreements, r.total) == Failure(ZeroDivisionError)
    ensures PercentAsWritten(stats.verified, stats.total) == Failure(ZeroDivisionError)
  {
  }

  /** The share with the guard the tool evidently intended: 0% of no rows. */
  function Percent(count: nat, total: nat): (p: real)
    ensures total == 0 ==> p == 0.0
    ensures total > 0 ==> p * (total as real) == (count as real) * 100.0
    ensures count <= total ==> 0.0 <= p <= 100.0
  {
    if total == 0 then 0.0 else (count as real / total as real) * 100.0
  }

  /** Wherever the unguarded division is defined, the guarded share equals it. */
  lemma PercentAgreesWhereDefined(count: nat, total: nat)
    requires total > 0
    ensures PercentAsWritten(count, total) == Success(Percent(count, total))
  {
  }

  /** One line of a summary table. */
  datatype SummaryLine = SummaryLine(metric: string, count: nat, percent: real)

  /** The "Risk Analysis Summary" table of the audit report. The first line always
      reads 100%. */
  function AuditSummary(r: Audit.Report): (lines: seq<SummaryLine>)
    requires Audit.ConsistentReport(r)
    ensures |lines| == 5 && lines[0] == SummaryLine("Total Rows", r.total, 100.0)
    ensures lines[1].count == r.agreements && lines[1].percent == Percent(r.agreements, r.total)
    ensures lines[2].count == r.highConfAgreements && lines[2].percent == Percent(r.highConfAgreements, r.total)
    ensures lines[3].count == r.lowConf && lines[3].percent == Percent(r.lowConf, r.total)
    ensures lines[4].count == r.highConfDisagreements
         && lines[4].percent == Percent(r.highConfDisagreements, r.total)
    ensures forall k :: 0 <= k < |lines| ==> lines[k].count <= r.total && 0.0 <= lines[k].percent <= 100.0
    ensures r.total == 0 ==> forall k :: 1 <= k < |lines| ==> lines[k].percent == 0.0
  {
    [ SummaryLine("Total Rows", r.total, 100.0),
      SummaryLine("Total Agreement", r.agreements, Percent(r.agreements, r.total)),
      SummaryLine("High Confidence Agreement", r.highConfAgreements, Percent(r.highConfAgreements, r.total)),
      SummaryLine("Low Confidence (< 50%)", r.lowConf, Percent(r.lowConf, r.total)),
      SummaryLine("Danger Zone (High Conf Mismatch)", r.highConfDisagreements,
                  Percent(r.highConfDisagreements, r.total)) ]
  }

  /** The "File Processing Summary" table of the clean pass. */
  function CleanSummary(s: Clean.Stats): (lines: seq<SummaryLine>)
    requires s.autoFixed + s.verified + s.lowConf == s.total
    ensures |lines| == 4 && lines[0] == SummaryLine("Total Rows", s.total, 100.0)
    ensures lines[1].count == s.verified && lines[1].percent == Percent(s.verified, s.total)
    ensures lines[2].count == s.lowConf && lines[2].percent == Percent(s.lowConf, s.total)
    ensures lines[3].count == s.autoFixed && lines[3].percent == Percent(s.autoFixed, s.total)
    ensures forall k :: 0 <= k < |lines| ==> lines[k].count <= s.total && 0.0 <= lines[k].percent <= 100.0
  {
    [ SummaryLine("Total Rows", s.total, 100.0),
      SummaryLine("Verified (Kept Original)", s.verified, Percent(s.verified, s.total)),
      SummaryLine("Low Confidence (Needs Review)", s.lowConf, Percent(s.lowConf, s.total)),
      SummaryLine("Auto-Fixed (High Risk Errors)", s.autoFixed, Percent(s.autoFixed, s.total)) ]
  }

  /** A positive factor can be cancelled from both sides of an equation. */
  lemma CancelPositive(x: real, y: real, t: real)
    requires t > 0.0 && x * t == y * t
    ensures x == y
  {
    assert (x - y) * t == 0.0;
  }

  /** Shares of two counts out of the same positive total add up to the share of
      their sum. */
  lemma SharesAdd(a: nat, b: nat, t: real, pa: real, pb: real, pab: real)
    requires t > 0.0
    requires pa * t == a as real * 100.0 && pb * t == b as real * 100.0
    requires pab * t == (a + b) as real * 100.0
    ensures pa + pb == pab
  {
    assert (pa + pb) * t == pab * t;
    CancelPositive(pa + pb, pab, t);
  }

  /** Shares of the same total add up like the counts they come from. */
  lemma PercentAdditive(a: nat, b: nat, total: nat)
    requires total > 0
    ensures Percent(a, total) + Percent(b, total) == Percent(a + b, total)
  {
    SharesAdd(a, b, total as real, Percent(a, total), Percent(b, total), Percent(a + b, total));
  }

  /** Every row of a non-empty file is 100% of it. */
  lemma PercentOfWhole(total: nat)
    requires total > 0
    ensures Percent(total, total) == 100.0
  {
    var t := total as real;
    assert Percent(total, total) * t == 100.0 * t;
    CancelPositive(Percent(total, total), 100.0, t);
  }

  /** Because every row has exactly one status, the three status shares of a
      non-empty file add up to 100%. */
  lemma StatusSharesSumTo100(s: Clean.Stats)
    requires s.autoFixed + s.verified + s.lowConf == s.total && s.total > 0
    ensures var lines := CleanSummary(s);
      lines[1].percent + lines[2].percent + lines[3].percent == 100.0
  {
    PercentAdditive(s.verified, s.lowConf, s.total);
    PercentAdditive(s.verified + s.lowConf, s.autoFixed, s.total);
    PercentOfWhole(s.total);
  }
}

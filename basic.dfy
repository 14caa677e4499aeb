/**
 * The run comparison of autoreport/analysis/basic.py: the choice of the main
 * metric and the best/baseline summary.  Metric values are carried, never
 * compared.
 */
module Basic {
  import opened Wrappers
  import opened Runtime
  import opened Sanity

  /** A `Metric` record: its name and value (direction and spread are not used here). */
  datatype Metric = Metric(name: string, value: real)

  /** A `Run` record, with the fields the analysis reads. */
  datatype Run = Run(id: string, metrics: Dict<Metric>)

  /** The metrics `pick_metric` looks for, best first. */
  const Priority: seq<string> := ["roc_auc", "f1_w", "accuracy", "r2", "rmse", "mse"]

  /** The first of `candidates` that is a key of `metrics`, if any. */
  function FirstPresent<V>(candidates: seq<string>, metrics: Dict<V>): (r: Option<string>)
    ensures r.None? <==> forall j :: 0 <= j < |candidates| ==> candidates[j] !in KeySet(metrics)
    ensures r.Some? ==> r.value in KeySet(metrics)
    ensures r.Some? ==>
      exists i :: 0 <= i < |candidates| && candidates[i] == r.value && forall j :: 0 <= j < i ==> candidates[j] !in KeySet(metrics)
  {
    if |candidates| == 0 then None
    else if candidates[0] in KeySet(metrics) then Some(candidates[0])
    else
      var r := FirstPresent(candidates[1..], metrics);
      assert forall j :: 1 <= j < |candidates| ==> candidates[j] == candidates[1..][j - 1];
      r
  }

  /**
   * `pick_metric`: the first priority metric present; failing that the first
   * key in insertion order; failing that "accuracy".
   */
  function PickMetric<V>(metrics: Dict<V>): (k: string)
    ensures k in KeySet(metrics) || (k == "accuracy" && |metrics| == 0)
    ensures (exists j :: 0 <= j < |Priority| && Priority[j] in KeySet(metrics)) ==>
      exists i :: 0 <= i < |Priority| && Priority[i] == k && forall j :: 0 <= j < i ==> Priority[j] !in KeySet(metrics)
    ensures (forall j :: 0 <= j < |Priority| ==> Priority[j] !in KeySet(metrics)) && |metrics| > 0 ==> k == metrics[0].0
  {
    match FirstPresent(Priority, metrics)
    case Some(k) => k
    case None => if |metrics| > 0 then metrics[0].0 else "accuracy"
  }

  /** A metric present in a run outranks every metric after it in the priority list. */
  lemma PickMetricPrefersRocAuc<V>(metrics: Dict<V>)
    ensures "roc_auc" in KeySet(metrics) ==> PickMetric(metrics) == "roc_auc"
    ensures "roc_auc" !in KeySet(metrics) && "f1_w" in KeySet(metrics) ==> PickMetric(metrics) == "f1_w"
  {
    assert Priority[0] == "roc_auc" && Priority[1] == "f1_w";
    if "roc_auc" in KeySet(metrics) || "f1_w" in KeySet(metrics) {
      var i :| 0 <= i < |Priority| && Priority[i] == PickMetric(metrics)
        && forall j :: 0 <= j < i ==> Priority[j] !in KeySet(metrics);
    }
  }

  /** `{k: v.value for k, v in metrics.items()}` */
  function MetricValues(metrics: Dict<Metric>): (r: Dict<real>)
    ensures |r| == |metrics|
    ensures forall i :: 0 <= i < |r| ==> r[i] == (metrics[i].0, metrics[i].1.value)
  {
    if |metrics| == 0 then [] else MetricValues(metrics[..|metrics| - 1]) + [(metrics[|metrics| - 1].0, metrics[|metrics| - 1].1.value)]
  }

  lemma MetricValuesKeys(metrics: Dict<Metric>)
    ensures KeySet(MetricValues(metrics)) == KeySet(metrics)
    ensures Keys(MetricValues(metrics)) == Keys(metrics)
  {
    var r := MetricValues(metrics);
    forall k | k in KeySet(metrics) ensures k in KeySet(r) {
      var i :| 0 <= i < |metrics| && metrics[i].0 == k;
      assert r[i].0 == k;
    }
  }

  /** The dictionary `build_analysis` returns: empty, or the full summary. */
  datatype Analysis =
    | NoRuns
    | Summary(best: Dict<real>, baseline: Dict<real>, bestId: string, baselineId: string,
              mainMetric: string, findings: seq<Finding>, riskLevel: string)

  /** The finding `build_analysis` raises when the best run has no ROC AUC. */
  const MissingProb: Finding := Finding("missing_prob", Some("warn"), Some("No y_prob for ROC/PR"))

  /**
   * `build_analysis`: the last run is the best, the one before it (or the
   * same run when there is only one) the baseline; one warning when the best
   * run lacks "roc_auc", which makes the risk "medium".
   */
  method BuildAnalysis(runs: seq<Run>) returns (a: Analysis)
    ensures runs == [] <==> a.NoRuns?
    ensures a.Summary? ==>
      var best := runs[|runs| - 1];
      var baseline := if |runs| >= 2 then runs[|runs| - 2] else runs[|runs| - 1];
      a.bestId == best.id && a.baselineId == baseline.id &&
      a.best == MetricValues(best.metrics) && a.baseline == MetricValues(baseline.metrics) &&
      a.mainMetric == PickMetric(best.metrics) &&
      (a.findings != [] <==> "roc_auc" !in KeySet(best.metrics)) &&
      (a.findings != [] ==> a.findings == [MissingProb]) &&
      a.riskLevel == (if "roc_auc" in KeySet(best.metrics) then "low" else "medium")
  {
    if |runs| == 0 {
      return NoRuns;
    }
    var baseline := if |runs| >= 2 then runs[|runs| - 2] else runs[|runs| - 1];
    var best := runs[|runs| - 1];
    var mainMetric := PickMetric(best.metrics);
    var findings: seq<Finding> := [];
    if "roc_auc" !in KeySet(best.metrics) {
      findings := findings + [MissingProb];
    }
    var riskLevel := "low";
    if findings != [] {
      riskLevel := AggregateRisk(findings);
      assert [MissingProb][..0] == [];
    }
    a := Summary(MetricValues(best.metrics), MetricValues(baseline.metrics), best.id, baseline.id,
                 mainMetric, findings, riskLevel);
  }
}

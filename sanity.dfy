/**
 * The sanity checks of autoreport/analysis/sanity.py that do not compute
 * with floating point: the missing-probabilities check and the aggregate
 * risk level of a list of findings.
 */
module Sanity {
  import opened Wrappers

  /** A finding dictionary: its "name", its "level" (absent when `None`) and its "msg". */
  datatype Finding = Finding(name: string, level: Option<string>, msg: Option<string>)

  /** The distinct values of a label vector (`np.unique`). */
  function Distinct<T(==)>(ys: seq<T>): set<T> {
    set i | 0 <= i < |ys| :: ys[i]
  }

  /**
   * `missing_prob_for_auc`: a warning exactly when the labels are binary and
   * no probabilities were logged; the finding is always named "missing_prob".
   */
  function MissingProbForAuc<T(==)>(yTrue: seq<T>, hasProb: bool): (f: Finding)
    ensures f.name == "missing_prob"
    ensures f.level == Some("warn") <==> |Distinct(yTrue)| == 2 && !hasProb
    ensures f.level == Some("warn") || f.level == Some("ok")
    ensures f.msg.Some? <==> f.level == Some("warn")
  {
    var needProb := |Distinct(yTrue)| == 2;
    if needProb && !hasProb then Finding("missing_prob", Some("warn"), Some("No y_prob for ROC/PR"))
    else Finding("missing_prob", Some("ok"), None)
  }

  /** What one finding adds to the risk score: 1 for "warn", 2 for "high", nothing otherwise. */
  function Weight(f: Finding): (w: nat)
    ensures w <= 2
  {
    (if f.level == Some("warn") then 1 else 0) + (if f.level == Some("high") then 2 else 0)
  }

  /** The risk score of a list of findings. */
  function Score(findings: seq<Finding>): nat {
    if |findings| == 0 then 0 else Score(findings[..|findings| - 1]) + Weight(findings[|findings| - 1])
  }

  /** The level a score maps to. */
  function LevelOf(score: nat): (level: string)
    ensures level in {"low", "medium", "high"}
    ensures level == "high" <==> score >= 3
    ensures level == "medium" <==> 1 <= score <= 2
    ensures level == "low" <==> score == 0
  {
    if score >= 3 then "high" else if score >= 1 then "medium" else "low"
  }

  /** The order of the risk levels. */
  function Rank(level: string): nat {
    if level == "high" then 2 else if level == "medium" then 1 else 0
  }

  /** `aggregate_risk`: the score loop and the thresholds. */
  method AggregateRisk(findings: seq<Finding>) returns (level: string)
    ensures level == LevelOf(Score(findings))
    ensures level in {"low", "medium", "high"}
    ensures findings == [] ==> level == "low"
  {
    var score := 0;
    var i := 0;
    while i < |findings|
      invariant 0 <= i <= |findings|
      invariant score == Score(findings[..i])
    {
      assert findings[..i + 1][..i] == findings[..i];
      var f := findings[i];
      if f.level == Some("warn") {
        score := score + 1;
      }
      if f.level == Some("high") {
        score := score + 2;
      }
      i := i + 1;
    }
    assert findings[..|findings|] == findings;
    if score >= 3 {
      return "high";
    }
    if score >= 1 {
      return "medium";
    }
    return "low";
  }

  /** How many findings carry the given level. */
  function CountLevel(findings: seq<Finding>, level: string): nat {
    |Hits(findings, level, |findings|)|
  }

  /** The positions below `n` of the findings that carry the given level. */
  function Hits(findings: seq<Finding>, level: string, n: int): set<int>
    requires 0 <= n <= |findings|
  {
    set i | 0 <= i < n && findings[i].level == Some(level)
  }

  lemma CountLevelSnoc(findings: seq<Finding>, level: string)
    requires |findings| > 0
    ensures CountLevel(findings, level) ==
      CountLevel(findings[..|findings| - 1], level) + (if findings[|findings| - 1].level == Some(level) then 1 else 0)
  {
    var n := |findings| - 1;
    HitsPrefix(findings, level, n);
    HitsStep(findings, level, n);
  }

  lemma HitsPrefix(findings: seq<Finding>, level: string, n: int)
    requires 0 <= n <= |findings|
    ensures Hits(findings[..n], level, n) == Hits(findings, level, n)
  {
    assert forall i :: 0 <= i < n ==> findings[..n][i] == findings[i];
  }

  lemma HitsStep(findings: seq<Finding>, level: string, n: int)
    requires 0 <= n < |findings|
    ensures |Hits(findings, level, n + 1)| == |Hits(findings, level, n)| + if findings[n].level == Some(level) then 1 else 0
  {
    var extra: set<int> := if findings[n].level == Some(level) then {n} else {};
    forall i ensures i in Hits(findings, level, n + 1) <==> i in Hits(findings, level, n) + extra {
    }
    assert Hits(findings, level, n + 1) == Hits(findings, level, n) + extra;
    assert n !in Hits(findings, level, n);
  }

  /** The score is the number of "warn" findings plus twice the number of "high" ones. */
  lemma {:induction false} ScoreCountsLevels(findings: seq<Finding>)
    ensures Score(findings) == CountLevel(findings, "warn") + 2 * CountLevel(findings, "high")
  {
    if |findings| == 0 {
      assert findings == [];
    } else {
      ScoreCountsLevels(findings[..|findings| - 1]);
      CountLevelSnoc(findings, "warn");
      CountLevelSnoc(findings, "high");
    }
  }

  /** The score only depends on which findings are present, not on their order. */
  lemma {:induction false} ScoreAppend(a: seq<Finding>, b: seq<Finding>)
    ensures Score(a + b) == Score(a) + Score(b)
    decreases |b|
  {
    if |b| == 0 {
      assert a + b == a;
    } else {
      assert (a + b)[..|a + b| - 1] == a + b[..|b| - 1];
      ScoreAppend(a, b[..|b| - 1]);
    }
  }

  /** Adding a finding never lowers the aggregate risk level. */
  lemma AppendNeverLowersRisk(findings: seq<Finding>, f: Finding)
    ensures Rank(LevelOf(Score(findings))) <= Rank(LevelOf(Score(findings + [f])))
  {
    assert (findings + [f])[..|findings|] == findings;
  }

  /** A missing-probabilities warning on its own makes the risk "medium"; an "ok" makes it "low". */
  lemma MissingProbRisk<T>(yTrue: seq<T>, hasProb: bool)
    ensures LevelOf(Score([MissingProbForAuc(yTrue, hasProb)])) ==
      if |Distinct(yTrue)| == 2 && !hasProb then "medium" else "low"
  {
    assert [MissingProbForAuc(yTrue, hasProb)][..0] == [];
  }
}

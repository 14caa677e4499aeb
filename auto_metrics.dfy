/**
 * The pairing and result-key selection of `_auto_metrics` in
 * src/autoreport/tracker.py: sequences named "..._true" and "..._pred" of
 * equal length are paired, and each pair yields regression or
 * classification scores.  The scores are opaque: `score` stands for the
 * scikit-learn calls and `aucRaises` for a `roc_auc_score` that raises
 * `ValueError`.
 */
module AutoMetrics {
  import opened Wrappers
  import opened Text
  import opened Runtime

  /** `{k: v for k, v in namespace.items() if isinstance(v, (list, tuple, np.ndarray, pd.Series))}` */
  function Sequences(ns: Namespace): (r: Namespace)
    ensures forall i :: 0 <= i < |r| ==> r[i].1.form.Sequence?
    ensures forall x :: x in r <==> x in ns && x.1.form.Sequence?
  {
    if |ns| == 0 then []
    else
      var init := Sequences(ns[..|ns| - 1]);
      assert forall x :: x in ns <==> x in ns[..|ns| - 1] || x == ns[|ns| - 1];
      if ns[|ns| - 1].1.form.Sequence? then init + [ns[|ns| - 1]] else init
  }

  /**
   * The filter keeps namespace order: filtering a concatenation is
   * concatenating the filtered parts, so each kept entry stays where it was
   * relative to the others.
   */
  lemma {:induction false} SequencesAppend(a: Namespace, b: Namespace)
    ensures Sequences(a + b) == Sequences(a) + Sequences(b)
    decreases |b|
  {
    if |b| > 0 {
      var b' := b[..|b| - 1];
      assert (a + b)[..|a + b| - 1] == a + b';
      assert (a + b)[|a + b| - 1] == b[|b| - 1];
      SequencesAppend(a, b');
    } else {
      assert a + b == a;
    }
  }

  type Item = (string, Value)

  /** The pairs `(xs[0], xs[j])` for `j = 1, 2, ...`. */
  function PairsWith(x: Item, ys: seq<Item>): (r: seq<(Item, Item)>)
    ensures |r| == |ys|
    ensures forall j :: 0 <= j < |ys| ==> r[j] == (x, ys[j])
  {
    if |ys| == 0 then [] else PairsWith(x, ys[..|ys| - 1]) + [(x, ys[|ys| - 1])]
  }

  /** `itertools.combinations(xs, 2)`: every pair `(xs[i], xs[j])` with `i < j`, in lexicographic order of `(i, j)`. */
  function Combinations(xs: seq<Item>): (r: seq<(Item, Item)>)
    ensures forall p :: p in r <==> exists i, j :: 0 <= i < j < |xs| && p == (xs[i], xs[j])
    decreases |xs|
  {
    if |xs| == 0 then []
    else
      var rest := Combinations(xs[1..]);
      var head := PairsWith(xs[0], xs[1..]);
      assert forall p :: p in head <==> exists j :: 1 <= j < |xs| && p == (xs[0], xs[j]) by {
        forall p | p in head ensures exists j :: 1 <= j < |xs| && p == (xs[0], xs[j]) {
          var j :| 0 <= j < |head| && head[j] == p;
          assert p == (xs[0], xs[j + 1]);
        }
      }
      assert forall p :: p in rest <==> exists i, j :: 1 <= i < j < |xs| && p == (xs[i], xs[j]) by {
        forall p | p in rest ensures exists i, j :: 1 <= i < j < |xs| && p == (xs[i], xs[j]) {
          var i, j :| 0 <= i < j < |xs[1..]| && p == (xs[1..][i], xs[1..][j]);
          assert p == (xs[i + 1], xs[j + 1]);
        }
        forall i, j | 1 <= i < j < |xs| ensures (xs[i], xs[j]) in rest {
          assert (xs[i], xs[j]) == (xs[1..][i - 1], xs[1..][j - 1]);
        }
      }
      head + rest
  }

  /**
   * The index pairs `(i, j)` with `lo <= i < j < n` in lexicographic order,
   * row `i` by row: the order `combinations(range(n), 2)` yields them in.
   */
  function IndexPairs(lo: nat, n: nat): seq<(nat, nat)>
    decreases n - lo
  {
    if lo >= n then [] else Row(lo, n) + IndexPairs(lo + 1, n)
  }

  /** The pairs `(i, j)` for `i < j < n`, in order of `j`. */
  function Row(i: nat, n: nat): (r: seq<(nat, nat)>)
    requires i < n
    ensures |r| == n - i - 1
    ensures forall k :: 0 <= k < |r| ==> r[k] == (i, i + 1 + k)
  {
    seq(n - i - 1, k requires 0 <= k < n - i - 1 => (i, i + 1 + k))
  }

  /** `(i, j)` comes strictly before `(k, l)` in lexicographic order. */
  predicate LexBefore(p: (nat, nat), q: (nat, nat)) {
    p.0 < q.0 || (p.0 == q.0 && p.1 < q.1)
  }

  lemma {:induction false} IndexPairsMembers(lo: nat, n: nat, i: nat, j: nat)
    ensures (i, j) in IndexPairs(lo, n) <==> lo <= i < j < n
    decreases n - lo
  {
    if lo < n {
      IndexPairsMembers(lo + 1, n, i, j);
      if i == lo && lo < j < n {
        assert Row(lo, n)[j - lo - 1] == (i, j);
      }
    }
  }

  /** The index pairs come in strictly increasing lexicographic order. */
  lemma {:induction false} IndexPairsSorted(lo: nat, n: nat)
    ensures forall k, l :: 0 <= k < l < |IndexPairs(lo, n)| ==> LexBefore(IndexPairs(lo, n)[k], IndexPairs(lo, n)[l])
    decreases n - lo
  {
    if lo < n {
      IndexPairsSorted(lo + 1, n);
      var row, rest := Row(lo, n), IndexPairs(lo + 1, n);
      forall l | 0 <= l < |rest|
        ensures rest[l].0 > lo
      {
        IndexPairsMembers(lo + 1, n, rest[l].0, rest[l].1);
      }
      forall k, l | 0 <= k < l < |row + rest|
        ensures LexBefore((row + rest)[k], (row + rest)[l])
      {
        if k >= |row| {
          assert (row + rest)[k] == rest[k - |row|] && (row + rest)[l] == rest[l - |row|];
        } else if l >= |row| {
          assert (row + rest)[l] == rest[l - |row|];
        }
      }
    }
  }

  /**
   * Pair `k` of the combinations of `xs[lo..]` is `(xs[i], xs[j])` for the
   * `k`-th index pair `(i, j)` from row `lo` on: the pairs come in
   * lexicographic order of their positions, each exactly once.
   */
  lemma {:induction false} CombinationsIndexed(xs: seq<Item>, lo: nat)
    requires lo <= |xs|
    ensures var r, ps := Combinations(xs[lo..]), IndexPairs(lo, |xs|);
      |r| == |ps| &&
      forall k :: 0 <= k < |r| ==> lo <= ps[k].0 < ps[k].1 < |xs| && r[k] == (xs[ps[k].0], xs[ps[k].1])
    decreases |xs| - lo
  {
    if lo < |xs| {
      CombinationsIndexed(xs, lo + 1);
      assert xs[lo..][1..] == xs[lo + 1..];
      var head: seq<(Item, Item)> := PairsWith(xs[lo], xs[lo + 1..]);
      var rest: seq<(Item, Item)> := Combinations(xs[lo + 1..]);
      var row: seq<(nat, nat)> := Row(lo, |xs|);
      var later: seq<(nat, nat)> := IndexPairs(lo + 1, |xs|);
      assert Combinations(xs[lo..]) == head + rest;
      forall k | 0 <= k < |head + rest|
        ensures lo <= (row + later)[k].0 < (row + later)[k].1 < |xs|
        ensures (head + rest)[k] == (xs[(row + later)[k].0], xs[(row + later)[k].1])
      {
        if k >= |head| {
          assert (head + rest)[k] == rest[k - |head|] && (row + later)[k] == later[k - |row|];
        }
      }
    }
  }

  /** `combinations(xs, 2)`: pair `k` is `(xs[i], xs[j])` for the `k`-th index pair `i < j` in lexicographic order. */
  lemma CombinationsOrder(xs: seq<Item>)
    ensures var r, ps := Combinations(xs), IndexPairs(0, |xs|);
      |r| == |ps| &&
      forall k :: 0 <= k < |r| ==> ps[k].0 < ps[k].1 < |xs| && r[k] == (xs[ps[k].0], xs[ps[k].1])
  {
    CombinationsIndexed(xs, 0);
    assert xs[0..] == xs;
  }

  /** The length `len(vars_[a])` of a sequence value. */
  function Len(v: Value): nat
    requires v.form.Sequence?
  {
    v.form.length
  }

  /**
   * What one combination `(a, b)` contributes: a label and a (true, pred)
   * pair when one name ends in "_true", the other in "_pred" and the lengths
   * agree.  The label is the "_true" name without those five characters;
   * the rest of the two names is not compared.
   */
  function Match(a: Item, b: Item): (r: Option<(string, (Value, Value))>)
    requires a.1.form.Sequence? && b.1.form.Sequence?
  {
    if EndsWith(a.0, "_true") && EndsWith(b.0, "_pred") && Len(a.1) == Len(b.1) then
      Some((a.0[..|a.0| - 5], (a.1, b.1)))
    else if EndsWith(b.0, "_true") && EndsWith(a.0, "_pred") && Len(a.1) == Len(b.1) then
      Some((b.0[..|b.0| - 5], (b.1, a.1)))
    else None
  }

  /**
   * A pair forms exactly when one name ends in "_true", the other in
   * "_pred", and the lengths agree; its label is the "_true" name without
   * its last five characters, and the true vector comes first.
   */
  lemma MatchSpec(a: Item, b: Item)
    requires a.1.form.Sequence? && b.1.form.Sequence?
    ensures var r := Match(a, b);
      (r.Some? <==>
        Len(a.1) == Len(b.1) &&
        ((EndsWith(a.0, "_true") && EndsWith(b.0, "_pred")) || (EndsWith(b.0, "_true") && EndsWith(a.0, "_pred")))) &&
      (r.Some? && EndsWith(a.0, "_true") ==> r.value == (a.0[..|a.0| - 5], (a.1, b.1))) &&
      (r.Some? && EndsWith(b.0, "_true") ==> r.value == (b.0[..|b.0| - 5], (b.1, a.1))) &&
      (r.Some? ==> r.value.0 + "_true" == a.0 || r.value.0 + "_true" == b.0)
  {
    NotBoth(a.0);
    NotBoth(b.0);
    if EndsWith(a.0, "_true") {
      assert a.0[..|a.0| - 5] + "_true" == a.0;
    }
    if EndsWith(b.0, "_true") {
      assert b.0[..|b.0| - 5] + "_true" == b.0;
    }
  }

  /** No name ends in both "_true" and "_pred", so at most one branch of a combination fires. */
  lemma NotBoth(s: string)
    ensures !(EndsWith(s, "_true") && EndsWith(s, "_pred"))
  {
    if EndsWith(s, "_true") {
      assert s[|s| - 5..][1] == 't';
      assert s[|s| - 5..] != "_pred";
    }
  }

  /** One iteration of the combination loop: the two `if`s, each writing `found[label]`. */
  function Step(found: Dict<(Value, Value)>, a: Item, b: Item): Dict<(Value, Value)>
    requires a.1.form.Sequence? && b.1.form.Sequence?
  {
    var f := if EndsWith(a.0, "_true") && EndsWith(b.0, "_pred") && Len(a.1) == Len(b.1)
      then Put(found, a.0[..|a.0| - 5], (a.1, b.1)) else found;
    if EndsWith(b.0, "_true") && EndsWith(a.0, "_pred") && Len(a.1) == Len(b.1)
      then Put(f, b.0[..|b.0| - 5], (b.1, a.1)) else f
  }

  predicate AllSequences(ps: seq<(Item, Item)>) {
    forall i :: 0 <= i < |ps| ==> ps[i].0.1.form.Sequence? && ps[i].1.1.form.Sequence?
  }

  /** The `found` dict after the combination loop. */
  function Found(ps: seq<(Item, Item)>): Dict<(Value, Value)>
    requires AllSequences(ps)
  {
    if |ps| == 0 then []
    else Step(Found(ps[..|ps| - 1]), ps[|ps| - 1].0, ps[|ps| - 1].1)
  }

  /** The pair recorded for `label` by the last combination in order that yields it (the reference definition). */
  function LastMatch(ps: seq<(Item, Item)>, lbl: string): Option<(Value, Value)>
    requires AllSequences(ps)
  {
    if |ps| == 0 then None
    else
      var m := Match(ps[|ps| - 1].0, ps[|ps| - 1].1);
      if m.Some? && m.value.0 == lbl then Some(m.value.1) else LastMatch(ps[..|ps| - 1], lbl)
  }

  /** `LastMatch(ps, label)` finds nothing only when no combination's match carries the label. */
  predicate NoMatchIn(ps: seq<(Item, Item)>, lo: int, lbl: string)
    requires AllSequences(ps)
  {
    forall j :: lo <= j < |ps| && 0 <= j ==> Match(ps[j].0, ps[j].1).None? || Match(ps[j].0, ps[j].1).value.0 != lbl
  }

  /** `LastMatch` finds the last combination whose match carries the label, and nothing when none does. */
  lemma LastMatchSpec(ps: seq<(Item, Item)>, lbl: string)
    requires AllSequences(ps)
    ensures LastMatch(ps, lbl).Some? ==>
      exists i :: 0 <= i < |ps| && Match(ps[i].0, ps[i].1) == Some((lbl, LastMatch(ps, lbl).value)) && NoMatchIn(ps, i + 1, lbl)
    ensures LastMatch(ps, lbl).None? ==> NoMatchIn(ps, 0, lbl)
  {
    if LastMatch(ps, lbl).Some? {
      LastMatchFound(ps, lbl);
      var i :| LastHit(ps, i, lbl, LastMatch(ps, lbl).value);
      assert Match(ps[i].0, ps[i].1) == Some((lbl, LastMatch(ps, lbl).value));
    } else {
      LastMatchAbsent(ps, lbl);
    }
  }

  /** Combination `i` matches `(lbl, v)` and no later one carries `lbl`. */
  predicate LastHit(ps: seq<(Item, Item)>, i: int, lbl: string, v: (Value, Value))
    requires AllSequences(ps)
  {
    0 <= i < |ps| && Match(ps[i].0, ps[i].1) == Some((lbl, v)) && NoMatchIn(ps, i + 1, lbl)
  }

  lemma {:induction false} LastMatchFound(ps: seq<(Item, Item)>, lbl: string)
    requires AllSequences(ps)
    requires LastMatch(ps, lbl).Some?
    ensures exists i :: LastHit(ps, i, lbl, LastMatch(ps, lbl).value)
  {
    var n := |ps| - 1;
    var m := Match(ps[n].0, ps[n].1);
    if m.Some? && m.value.0 == lbl {
      assert LastHit(ps, n, lbl, LastMatch(ps, lbl).value);
    } else {
      var init := ps[..n];
      assert AllSequences(init) by {
        assert forall i :: 0 <= i < n ==> init[i] == ps[i];
      }
      LastMatchFound(init, lbl);
      var i :| LastHit(init, i, lbl, LastMatch(init, lbl).value);
      LastHitExtend(ps, i, lbl, LastMatch(init, lbl).value);
    }
  }

  /** A last hit in all but the final combination stays the last hit when the final one does not carry the label. */
  lemma LastHitExtend(ps: seq<(Item, Item)>, i: int, lbl: string, v: (Value, Value))
    requires AllSequences(ps) && |ps| > 0
    requires AllSequences(ps[..|ps| - 1]) && LastHit(ps[..|ps| - 1], i, lbl, v)
    requires Match(ps[|ps| - 1].0, ps[|ps| - 1].1).None? || Match(ps[|ps| - 1].0, ps[|ps| - 1].1).value.0 != lbl
    ensures LastHit(ps, i, lbl, v)
  {
    var n := |ps| - 1;
    var init := ps[..n];
    assert ps[i] == init[i];
    forall j | i + 1 <= j < |ps|
      ensures Match(ps[j].0, ps[j].1).None? || Match(ps[j].0, ps[j].1).value.0 != lbl
    {
      if j < n {
        assert ps[j] == init[j];
      }
    }
  }

  lemma {:induction false} LastMatchAbsent(ps: seq<(Item, Item)>, lbl: string)
    requires AllSequences(ps)
    requires LastMatch(ps, lbl).None?
    ensures NoMatchIn(ps, 0, lbl)
  {
    if |ps| > 0 {
      var n := |ps| - 1;
      var init := ps[..n];
      assert forall i :: 0 <= i < n ==> init[i] == ps[i];
      LastMatchAbsent(init, lbl);
    }
  }

  /** One combination's step is `found[label] = pair` for its match, if any. */
  lemma StepIsMatch(found: Dict<(Value, Value)>, a: Item, b: Item, lbl: string)
    requires a.1.form.Sequence? && b.1.form.Sequence?
    ensures var m := Match(a, b);
      Get(Step(found, a, b), lbl) == if m.Some? && m.value.0 == lbl then Some(m.value.1) else Get(found, lbl)
  {
    var m := Match(a, b);
    NotBoth(a.0);
    NotBoth(b.0);
    if m.Some? {
      PutGet(found, m.value.0, m.value.1, lbl);
    }
  }

  /** Later combinations overwrite earlier ones: each label holds the pair of its last match. */
  lemma {:induction false} FoundIsLastMatch(ps: seq<(Item, Item)>, lbl: string)
    requires AllSequences(ps)
    ensures Get(Found(ps), lbl) == LastMatch(ps, lbl)
  {
    if |ps| > 0 {
      var init := ps[..|ps| - 1];
      assert AllSequences(init) by {
        assert forall i :: 0 <= i < |init| ==> init[i] == ps[i];
      }
      FoundIsLastMatch(init, lbl);
      StepIsMatch(Found(init), ps[|ps| - 1].0, ps[|ps| - 1].1, lbl);
    }
  }

  // ----- result keys -----

  /** A regression target: integer, float or unsigned dtype with more than ten distinct values. */
  predicate IsRegression(yTrue: Value)
    requires yTrue.form.Sequence?
  {
    yTrue.form.dtypeKind in "ifu" && yTrue.form.uniqueCount > 10
  }

  /** The metric suffixes `_auto_metrics` computes for one pair. */
  function Suffixes(yTrue: Value, yPred: Value, aucRaises: (Value, Value) -> bool): seq<string>
    requires yTrue.form.Sequence?
  {
    if IsRegression(yTrue) then ["_mse", "_r2"]
    else if yTrue.form.uniqueCount == 2 && !aucRaises(yTrue, yPred) then ["_acc", "_prec", "_rec", "_f1", "_auc"]
    else ["_acc", "_prec", "_rec", "_f1"]
  }

  /**
   * Regression scores exactly for a numeric target with more than ten
   * distinct values; otherwise the four classification scores, and the ROC
   * AUC only for two distinct labels when scoring it does not raise.
   */
  lemma SuffixesSpec(yTrue: Value, yPred: Value, aucRaises: (Value, Value) -> bool)
    requires yTrue.form.Sequence?
    ensures var r := Suffixes(yTrue, yPred, aucRaises);
      ("_mse" in r <==> IsRegression(yTrue)) && ("_r2" in r <==> IsRegression(yTrue)) &&
      ("_acc" in r <==> !IsRegression(yTrue)) && ("_prec" in r <==> !IsRegression(yTrue)) &&
      ("_rec" in r <==> !IsRegression(yTrue)) && ("_f1" in r <==> !IsRegression(yTrue)) &&
      ("_auc" in r <==> !IsRegression(yTrue) && yTrue.form.uniqueCount == 2 && !aucRaises(yTrue, yPred))
  {
  }

  /**
   * The scores of one label: `results[f"{label}_mse"]` and `_r2` for a
   * regression target, otherwise `_acc`, `_prec`, `_rec` and `_f1`, and `_auc`
   * for two distinct labels when scoring it does not raise.
   */
  function ScoreLabel(results: Dict<real>, lbl: string, yt: Value, yp: Value,
                      score: (string, Value, Value) -> real, aucRaises: (Value, Value) -> bool): Dict<real>
    requires yt.form.Sequence?
  {
    if IsRegression(yt) then
      Put(Put(results, lbl + "_mse", score("_mse", yt, yp)), lbl + "_r2", score("_r2", yt, yp))
    else
      var r := ClassificationScores(results, lbl, yt, yp, score);
      if yt.form.uniqueCount == 2 && !aucRaises(yt, yp) then Put(r, lbl + "_auc", score("_auc", yt, yp)) else r
  }

  /** The four classification scores of one label, in the order they are stored. */
  function ClassificationScores(results: Dict<real>, lbl: string, yt: Value, yp: Value,
                                score: (string, Value, Value) -> real): Dict<real>
  {
    Put(Put(Put(Put(results,
      lbl + "_acc", score("_acc", yt, yp)), lbl + "_prec", score("_prec", yt, yp)),
      lbl + "_rec", score("_rec", yt, yp)), lbl + "_f1", score("_f1", yt, yp))
  }

  lemma ClassificationScoresKeys(results: Dict<real>, lbl: string, yt: Value, yp: Value,
                                 score: (string, Value, Value) -> real, k: string)
    ensures k in KeySet(ClassificationScores(results, lbl, yt, yp, score)) <==>
      k in KeySet(results) || k == lbl + "_acc" || k == lbl + "_prec" || k == lbl + "_rec" || k == lbl + "_f1"
  {
  }

  /** Scoring a label adds exactly the keys made of the label and a suffix `Suffixes` selects. */
  lemma ScoreLabelKeys(results: Dict<real>, lbl: string, yt: Value, yp: Value,
                       score: (string, Value, Value) -> real, aucRaises: (Value, Value) -> bool, k: string)
    requires yt.form.Sequence?
    ensures k in KeySet(ScoreLabel(results, lbl, yt, yp, score, aucRaises)) <==>
      k in KeySet(results) || (StartsWith(k, lbl) && k[|lbl|..] in Suffixes(yt, yp, aucRaises))
  {
    if IsRegression(yt) {
      RegressionKeys(results, lbl, yt, yp, score, aucRaises, k);
      RegressionSuffixes(k, lbl, yt, yp, aucRaises);
    } else {
      ClassificationKeys(results, lbl, yt, yp, score, aucRaises, k);
      ClassificationSuffixes(k, lbl, yt, yp, aucRaises);
    }
  }

  lemma RegressionSuffixes(k: string, lbl: string, yt: Value, yp: Value, aucRaises: (Value, Value) -> bool)
    requires yt.form.Sequence? && IsRegression(yt)
    ensures StartsWith(k, lbl) && k[|lbl|..] in Suffixes(yt, yp, aucRaises) <==> k == lbl + "_mse" || k == lbl + "_r2"
  {
    LabelPlus(k, lbl, "_mse");
    LabelPlus(k, lbl, "_r2");
  }

  lemma ClassificationSuffixes(k: string, lbl: string, yt: Value, yp: Value, aucRaises: (Value, Value) -> bool)
    requires yt.form.Sequence? && !IsRegression(yt)
    ensures StartsWith(k, lbl) && k[|lbl|..] in Suffixes(yt, yp, aucRaises) <==>
      k == lbl + "_acc" || k == lbl + "_prec" || k == lbl + "_rec" || k == lbl + "_f1" ||
      (yt.form.uniqueCount == 2 && !aucRaises(yt, yp) && k == lbl + "_auc")
  {
    LabelPlus(k, lbl, "_acc");
    LabelPlus(k, lbl, "_prec");
    LabelPlus(k, lbl, "_rec");
    LabelPlus(k, lbl, "_f1");
    LabelPlus(k, lbl, "_auc");
  }

  lemma RegressionKeys(results: Dict<real>, lbl: string, yt: Value, yp: Value,
                       score: (string, Value, Value) -> real, aucRaises: (Value, Value) -> bool, k: string)
    requires yt.form.Sequence? && IsRegression(yt)
    ensures k in KeySet(ScoreLabel(results, lbl, yt, yp, score, aucRaises)) <==>
      k in KeySet(results) || k == lbl + "_mse" || k == lbl + "_r2"
  {
  }

  lemma ClassificationKeys(results: Dict<real>, lbl: string, yt: Value, yp: Value,
                           score: (string, Value, Value) -> real, aucRaises: (Value, Value) -> bool, k: string)
    requires yt.form.Sequence? && !IsRegression(yt)
    ensures k in KeySet(ScoreLabel(results, lbl, yt, yp, score, aucRaises)) <==>
      k in KeySet(results) || k == lbl + "_acc" || k == lbl + "_prec" || k == lbl + "_rec" || k == lbl + "_f1" ||
      (yt.form.uniqueCount == 2 && !aucRaises(yt, yp) && k == lbl + "_auc")
  {
    ClassificationScoresKeys(results, lbl, yt, yp, score, k);
  }

  /** `k` is the label followed by `s` exactly when it starts with the label and `s` is the rest. */
  lemma LabelPlus(k: string, lbl: string, s: string)
    ensures k == lbl + s <==> StartsWith(k, lbl) && k[|lbl|..] == s
  {
    if StartsWith(k, lbl) && k[|lbl|..] == s {
      assert k == k[..|lbl|] + k[|lbl|..];
    }
    if k == lbl + s {
      assert k[..|lbl|] == lbl;
    }
  }

  predicate AllFoundSequences(found: Dict<(Value, Value)>) {
    forall i :: 0 <= i < |found| ==> found[i].1.0.form.Sequence?
  }

  /** The `results` dict after the second loop, over `found` in insertion order. */
  function Results(found: Dict<(Value, Value)>, score: (string, Value, Value) -> real,
                   aucRaises: (Value, Value) -> bool): Dict<real>
    requires AllFoundSequences(found)
  {
    if |found| == 0 then []
    else
      var (lbl, (yt, yp)) := found[|found| - 1];
      ScoreLabel(Results(found[..|found| - 1], score, aucRaises), lbl, yt, yp, score, aucRaises)
  }

  /** Some entry of `found` produces the key `k`. */
  predicate AnyKeyOf(found: Dict<(Value, Value)>, aucRaises: (Value, Value) -> bool, k: string)
    requires AllFoundSequences(found)
  {
    |found| > 0 && (AnyKeyOf(found[..|found| - 1], aucRaises, k) || KeyOf(found[|found| - 1], aucRaises, k))
  }

  lemma AnyKeyOfSpec(found: Dict<(Value, Value)>, aucRaises: (Value, Value) -> bool, k: string)
    requires AllFoundSequences(found)
    ensures AnyKeyOf(found, aucRaises, k) <==> exists i :: 0 <= i < |found| && KeyOf(found[i], aucRaises, k)
  {
    if AnyKeyOf(found, aucRaises, k) {
      AnyKeyOfFound(found, aucRaises, k);
    } else {
      AnyKeyOfAbsent(found, aucRaises, k);
    }
  }

  lemma {:induction false} AnyKeyOfFound(found: Dict<(Value, Value)>, aucRaises: (Value, Value) -> bool, k: string)
    requires AllFoundSequences(found) && AnyKeyOf(found, aucRaises, k)
    ensures exists i :: 0 <= i < |found| && KeyOf(found[i], aucRaises, k)
  {
    var n := |found| - 1;
    if !KeyOf(found[n], aucRaises, k) {
      var init := found[..n];
      AnyKeyOfFound(init, aucRaises, k);
      var i :| 0 <= i < n && KeyOf(init[i], aucRaises, k);
      assert found[i] == init[i];
    }
  }

  lemma {:induction false} AnyKeyOfAbsent(found: Dict<(Value, Value)>, aucRaises: (Value, Value) -> bool, k: string)
    requires AllFoundSequences(found) && !AnyKeyOf(found, aucRaises, k)
    ensures forall i :: 0 <= i < |found| ==> !KeyOf(found[i], aucRaises, k)
  {
    if |found| > 0 {
      var n := |found| - 1;
      var init := found[..n];
      AnyKeyOfAbsent(init, aucRaises, k);
      forall i | 0 <= i < |found|
        ensures !KeyOf(found[i], aucRaises, k)
      {
        if i < n {
          assert found[i] == init[i];
        }
      }
    }
  }

  /** Every result key is a found label followed by one of the suffixes chosen for that label's pair, and all of them are present. */
  lemma ResultKeys(found: Dict<(Value, Value)>, score: (string, Value, Value) -> real,
                   aucRaises: (Value, Value) -> bool, k: string)
    requires AllFoundSequences(found)
    ensures k in KeySet(Results(found, score, aucRaises)) <==>
      exists i :: 0 <= i < |found| && KeyOf(found[i], aucRaises, k)
  {
    ResultKeysAny(found, score, aucRaises, k);
    AnyKeyOfSpec(found, aucRaises, k);
  }

  lemma {:induction false} ResultKeysAny(found: Dict<(Value, Value)>, score: (string, Value, Value) -> real,
                                         aucRaises: (Value, Value) -> bool, k: string)
    requires AllFoundSequences(found)
    ensures k in KeySet(Results(found, score, aucRaises)) <==> AnyKeyOf(found, aucRaises, k)
  {
    if |found| > 0 {
      var n := |found| - 1;
      var init := found[..n];
      ResultKeysAny(init, score, aucRaises, k);
      ScoreLabelKeys(Results(init, score, aucRaises), found[n].0, found[n].1.0, found[n].1.1, score, aucRaises, k);
    }
  }

  /** `k` is one of the keys produced for entry `e` of `found`: its label followed by one of the suffixes chosen for its pair. */
  predicate KeyOf(e: (string, (Value, Value)), aucRaises: (Value, Value) -> bool, k: string)
    requires e.1.0.form.Sequence?
  {
    StartsWith(k, e.0) && k[|e.0|..] in Suffixes(e.1.0, e.1.1, aucRaises)
  }

  /**
   * `_auto_metrics`: the combination loop filling `found`, then the scoring
   * loop filling `results`, proved against `Found` and `Results`.
   */
  method AutoMetricsOf(ns: Namespace, score: (string, Value, Value) -> real, aucRaises: (Value, Value) -> bool)
    returns (results: Dict<real>)
    ensures var ps := Combinations(Sequences(ns));
      AllSequences(ps) && AllFoundSequences(Found(ps)) &&
      results == Results(Found(ps), score, aucRaises)
  {
    var vars := Sequences(ns);
    var ps := Combinations(vars);
    assert AllSequences(ps) by {
      forall i | 0 <= i < |ps| ensures ps[i].0.1.form.Sequence? && ps[i].1.1.form.Sequence? {
        assert ps[i] in ps;
      }
    }
    var found := FoundLoop(ps);
    results := ScoreLoop(found, score, aucRaises);
  }

  /** The combination loop. */
  method FoundLoop(ps: seq<(Item, Item)>) returns (found: Dict<(Value, Value)>)
    requires AllSequences(ps)
    ensures found == Found(ps) && AllFoundSequences(found)
  {
    found := [];
    var i := 0;
    PrefixSequences(ps, 0);
    while i < |ps|
      invariant 0 <= i <= |ps|
      invariant AllSequences(ps[..i])
      invariant found == Found(ps[..i])
      invariant AllFoundSequences(found)
    {
      PrefixSequences(ps, i + 1);
      assert ps[..i + 1][..i] == ps[..i];
      var (a, b) := ps[i];
      if EndsWith(a.0, "_true") && EndsWith(b.0, "_pred") && Len(a.1) == Len(b.1) {
        PutKeepsSequences(found, a.0[..|a.0| - 5], (a.1, b.1));
        found := Put(found, a.0[..|a.0| - 5], (a.1, b.1));
      }
      if EndsWith(b.0, "_true") && EndsWith(a.0, "_pred") && Len(a.1) == Len(b.1) {
        PutKeepsSequences(found, b.0[..|b.0| - 5], (b.1, a.1));
        found := Put(found, b.0[..|b.0| - 5], (b.1, a.1));
      }
      i := i + 1;
    }
    assert ps[..|ps|] == ps;
  }

  lemma PrefixSequences(ps: seq<(Item, Item)>, i: int)
    requires AllSequences(ps) && 0 <= i <= |ps|
    ensures AllSequences(ps[..i])
  {
    assert forall j :: 0 <= j < i ==> ps[..i][j] == ps[j];
  }

  lemma {:induction false} PutKeepsSequences(found: Dict<(Value, Value)>, k: string, v: (Value, Value))
    requires AllFoundSequences(found) && v.0.form.Sequence?
    ensures AllFoundSequences(Put(found, k, v))
  {
    if |found| > 0 && found[0].0 != k {
      PutKeepsSequences(found[1..], k, v);
    }
  }

  /** The scoring loop. */
  method ScoreLoop(found: Dict<(Value, Value)>, score: (string, Value, Value) -> real, aucRaises: (Value, Value) -> bool)
    returns (results: Dict<real>)
    requires AllFoundSequences(found)
    ensures results == Results(found, score, aucRaises)
  {
    results := [];
    var i := 0;
    while i < |found|
      invariant 0 <= i <= |found|
      invariant results == Results(found[..i], score, aucRaises)
    {
      assert found[..i + 1][..i] == found[..i];
      var (lbl, (yt, yp)) := found[i];
      results := ScoreOne(results, lbl, yt, yp, score, aucRaises);
      i := i + 1;
    }
    assert found[..|found|] == found;
  }

  /** The body of the scoring loop for one label: the item assignments of one branch. */
  method ScoreOne(results0: Dict<real>, lbl: string, yt: Value, yp: Value,
                  score: (string, Value, Value) -> real, aucRaises: (Value, Value) -> bool)
    returns (results: Dict<real>)
    requires yt.form.Sequence?
    ensures results == ScoreLabel(results0, lbl, yt, yp, score, aucRaises)
  {
    results := results0;
    if yt.form.dtypeKind in "ifu" && yt.form.uniqueCount > 10 {
      results := Put(results, lbl + "_mse", score("_mse", yt, yp));
      results := Put(results, lbl + "_r2", score("_r2", yt, yp));
    } else {
      results := Put(results, lbl + "_acc", score("_acc", yt, yp));
      results := Put(results, lbl + "_prec", score("_prec", yt, yp));
      results := Put(results, lbl + "_rec", score("_rec", yt, yp));
      results := Put(results, lbl + "_f1", score("_f1", yt, yp));
      if yt.form.uniqueCount == 2 && !aucRaises(yt, yp) {
        results := Put(results, lbl + "_auc", score("_auc", yt, yp));
      }
    }
  }
}

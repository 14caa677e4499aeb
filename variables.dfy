/**
 * Namespace discovery: `discover_models_and_data` (identical in
 * autoreport/capture/variables.py and build/lib/autoreport/capture/variables.py)
 * and the label parsing of the build/lib copy (`discover_labels`,
 * `extract_predictions`).  `np.asarray` is the identity here.
 */
module Variables {
  import opened Wrappers
  import opened Text
  import opened Runtime

  // ----- discover_models_and_data -----

  /** The names with a `predict` attribute, in namespace order. */
  function ModelNames(ns: Namespace): (r: seq<string>)
    ensures forall x :: x in r <==> exists i :: 0 <= i < |ns| && ns[i].0 == x && ns[i].1.hasPredict
  {
    if |ns| == 0 then []
    else
      var init := ns[..|ns| - 1];
      var rest := ModelNames(init);
      assert forall i :: 0 <= i < |init| ==> init[i] == ns[i];
      if ns[|ns| - 1].1.hasPredict then rest + [ns[|ns| - 1].0] else rest
  }

  /** A data variable: it has a length and no `predict`. */
  predicate IsData(v: Value) {
    v.hasLen && !v.hasPredict
  }

  /** `next(iter(data_vars), None)`: the first data variable in namespace order. */
  function FirstData(ns: Namespace): (r: Option<string>)
    ensures r.None? <==> forall i :: 0 <= i < |ns| ==> !IsData(ns[i].1)
    ensures r.Some? ==>
      exists i :: 0 <= i < |ns| && ns[i].0 == r.value && IsData(ns[i].1) && forall j :: 0 <= j < i ==> !IsData(ns[j].1)
  {
    if |ns| == 0 then None
    else if IsData(ns[0].1) then Some(ns[0].0)
    else
      var r := FirstData(ns[1..]);
      assert forall j :: 1 <= j < |ns| ==> ns[j] == ns[1..][j - 1];
      r
  }

  /** `f"figure_{n}"` */
  function FigureKey(n: nat): string {
    "figure_" + NatToString(n)
  }

  lemma FigureKeyInjective(a: nat, b: nat)
    ensures FigureKey(a) == FigureKey(b) ==> a == b
  {
    if FigureKey(a) == FigureKey(b) {
      assert NatToString(a) == FigureKey(a)[7..];
      assert NatToString(b) == FigureKey(b)[7..];
      NatToStringInjective(a, b);
    }
  }

  /** One mapping entry: `{"model": name, "data": data_name}`. */
  datatype FigureEntry = FigureEntry(model: string, data: Option<string>)

  /**
   * `discover_models_and_data`: entry `figure_n` pairs the n-th model (in
   * namespace order) with the first data variable, the same for every entry.
   */
  method DiscoverModelsAndData(ns: Namespace) returns (mapping: Dict<FigureEntry>)
    ensures |mapping| == |ModelNames(ns)|
    ensures forall i :: 0 <= i < |mapping| ==>
      mapping[i] == (FigureKey(i + 1), FigureEntry(ModelNames(ns)[i], FirstData(ns)))
    ensures DistinctKeys(mapping)
  {
    var models := ScanModels(ns);
    var dataVars := ScanData(ns);
    var dataName := if dataVars == [] then None else Some(dataVars[0]);
    mapping := FigureEntries(models, dataName);
    forall i, k | 0 <= i < k < |mapping| ensures mapping[i].0 != mapping[k].0 {
      FigureKeyInjective(i + 1, k + 1);
    }
  }

  /** `models = {k: v for k, v in namespace.items() if hasattr(v, 'predict')}`, by name. */
  method ScanModels(ns: Namespace) returns (models: seq<string>)
    ensures models == ModelNames(ns)
  {
    models := [];
    var j := 0;
    while j < |ns|
      invariant 0 <= j <= |ns|
      invariant models == ModelNames(ns[..j])
    {
      assert ns[..j + 1][..j] == ns[..j];
      if ns[j].1.hasPredict {
        models := models + [ns[j].0];
      }
      j := j + 1;
    }
    assert ns[..|ns|] == ns;
  }

  /** `data_vars`, the names with a length and no `predict`; only its first name is ever used. */
  method ScanData(ns: Namespace) returns (dataVars: seq<string>)
    ensures dataVars == [] <==> FirstData(ns).None?
    ensures dataVars != [] ==> dataVars[0] == FirstData(ns).value
  {
    dataVars := [];
    var j := 0;
    while j < |ns|
      invariant 0 <= j <= |ns|
      invariant dataVars == [] <==> FirstData(ns[..j]).None?
      invariant dataVars != [] ==> dataVars[0] == FirstData(ns[..j]).value
    {
      assert ns[..j + 1][..j] == ns[..j];
      FirstDataSnoc(ns[..j + 1]);
      if IsData(ns[j].1) {
        dataVars := dataVars + [ns[j].0];
      }
      j := j + 1;
    }
    assert ns[..|ns|] == ns;
  }

  /** The counter loop over the models: entry `idx` is keyed `figure_{idx+1}`, then `idx` is incremented. */
  method FigureEntries(models: seq<string>, dataName: Option<string>) returns (mapping: Dict<FigureEntry>)
    ensures |mapping| == |models|
    ensures forall i :: 0 <= i < |mapping| ==> mapping[i] == (FigureKey(i + 1), FigureEntry(models[i], dataName))
  {
    mapping := [];
    var idx := 0;
    while idx < |models|
      invariant 0 <= idx <= |models|
      invariant |mapping| == idx
      invariant forall i :: 0 <= i < idx ==> mapping[i] == (FigureKey(i + 1), FigureEntry(models[i], dataName))
    {
      mapping := mapping + [(FigureKey(idx + 1), FigureEntry(models[idx], dataName))];
      idx := idx + 1;
    }
  }

  lemma FirstDataSnoc(ns: Namespace)
    requires |ns| > 0
    ensures FirstData(ns) == if FirstData(ns[..|ns| - 1]).Some? then FirstData(ns[..|ns| - 1])
      else if IsData(ns[|ns| - 1].1) then Some(ns[|ns| - 1].0) else None
  {
    var init := ns[..|ns| - 1];
    if |init| > 0 {
      assert init[1..] == ns[1..][..|ns[1..]| - 1];
      FirstDataSnoc(ns[1..]);
    }
  }

  /** In a dictionary, the chosen data variable is never one of the models. */
  lemma DataIsNotAModel(ns: Namespace)
    requires DistinctKeys(ns)
    ensures FirstData(ns).Some? ==> FirstData(ns).value !in ModelNames(ns)
  {
  }

  /** In a dictionary, each model is named by exactly one entry. */
  lemma ModelNamesDistinct(ns: Namespace)
    requires DistinctKeys(ns)
    ensures forall i, j :: 0 <= i < j < |ModelNames(ns)| ==> ModelNames(ns)[i] != ModelNames(ns)[j]
  {
    if |ns| > 0 {
      var init := ns[..|ns| - 1];
      assert forall i, j :: 0 <= i < j < |init| ==> init[i] == ns[i] && init[j] == ns[j];
      ModelNamesDistinct(init);
      var last := ns[|ns| - 1].0;
      forall i | 0 <= i < |init|
        ensures init[i].0 != last
      {
        assert ns[i].0 != ns[|ns| - 1].0;
      }
      assert last !in ModelNames(init);
    }
  }

  // ----- discover_labels -----

  /** The prefixes of the logged prediction variables. */
  const LabelPrefixes: set<string> := {"y_true_", "y_pred_", "y_prob_"}

  /** The labels one key names: its suffix after each prefix it starts with. */
  function LabelsOf(k: string): set<string> {
    (if StartsWith(k, "y_true_") then {k[|"y_true_"|..]} else {}) +
    (if StartsWith(k, "y_pred_") then {k[|"y_pred_"|..]} else {}) +
    (if StartsWith(k, "y_prob_") then {k[|"y_prob_"|..]} else {})
  }

  /** The labels named by a namespace. */
  function LabelSet(ns: Namespace): set<string> {
    if |ns| == 0 then {} else LabelSet(ns[..|ns| - 1]) + LabelsOf(ns[|ns| - 1].0)
  }

  /** `l` is a label exactly when `"y_true_" + l`, `"y_pred_" + l` or `"y_prob_" + l` is a key. */
  lemma {:induction false} LabelSetMembers(ns: Namespace, l: string)
    ensures l in LabelSet(ns) <==>
      ("y_true_" + l) in KeySet(ns) || ("y_pred_" + l) in KeySet(ns) || ("y_prob_" + l) in KeySet(ns)
  {
    if |ns| > 0 {
      var init := ns[..|ns| - 1];
      var k := ns[|ns| - 1].0;
      LabelSetMembers(init, l);
      assert KeySet(ns) == KeySet(init) + {k} by {
        assert forall i :: 0 <= i < |init| ==> init[i] == ns[i];
      }
      LabelsOfMembers(k, l);
    }
  }

  lemma LabelsOfMembers(k: string, l: string)
    ensures l in LabelsOf(k) <==> k == "y_true_" + l || k == "y_pred_" + l || k == "y_prob_" + l
  {
    forall p | p in LabelPrefixes
      ensures (StartsWith(k, p) && k[|p|..] == l) <==> k == p + l
    {
      if k == p + l {
        assert k[..|p|] == p && k[|p|..] == l;
      }
      if StartsWith(k, p) && k[|p|..] == l {
        assert k == k[..|p|] + k[|p|..];
      }
    }
  }

  /** Strictly increasing in Python's string order: sorted, no duplicates. */
  predicate StrictlySorted(s: seq<string>) {
    forall i, j :: 0 <= i < j < |s| ==> Less(s[i], s[j])
  }

  /** `x` placed into a strictly sorted list. */
  function Insert(s: seq<string>, x: string): (r: seq<string>)
    requires StrictlySorted(s)
    ensures StrictlySorted(r)
    ensures forall y :: y in r <==> y in s || y == x
  {
    if |s| == 0 then [x]
    else if x == s[0] then s
    else if Less(x, s[0]) then
      forall j | 0 < j < |s| ensures Less(x, s[j]) {
        LessTransitive(x, s[0], s[j]);
      }
      [x] + s
    else
      LessTotal(x, s[0]);
      var rest := Insert(s[1..], x);
      assert forall y :: y in rest ==> Less(s[0], y);
      [s[0]] + rest
  }

  /** `sorted(labels)` for a set of strings. */
  method SortStrings(labels: set<string>) returns (r: seq<string>)
    ensures StrictlySorted(r)
    ensures forall y :: y in r <==> y in labels
  {
    r := [];
    var rest := labels;
    while rest != {}
      invariant rest <= labels
      invariant StrictlySorted(r)
      invariant forall y :: y in r <==> y in labels - rest
      decreases rest
    {
      var x :| x in rest;
      r := Insert(r, x);
      rest := rest - {x};
    }
  }

  /** `discover_labels`: the labels of the namespace, sorted, each once. */
  method DiscoverLabels(ns: Namespace) returns (labels: seq<string>)
    ensures StrictlySorted(labels)
    ensures forall l :: l in labels <==> l in LabelSet(ns)
  {
    var found: set<string> := {};
    var i := 0;
    while i < |ns|
      invariant 0 <= i <= |ns|
      invariant found == LabelSet(ns[..i])
    {
      var k := ns[i].0;
      assert ns[..i + 1][..i] == ns[..i];
      ghost var before := found;
      if StartsWith(k, "y_true_") {
        found := found + {k[|"y_true_"|..]};
      }
      if StartsWith(k, "y_pred_") {
        found := found + {k[|"y_pred_"|..]};
      }
      if StartsWith(k, "y_prob_") {
        found := found + {k[|"y_prob_"|..]};
      }
      assert found == before + LabelsOf(k);
      i := i + 1;
    }
    assert ns[..|ns|] == ns;
    labels := SortStrings(found);
  }

  // ----- extract_predictions -----

  /** The kinds of prediction vectors, in the order they are looked up. */
  const Kinds: seq<string> := ["true", "pred", "prob"]

  /** `f"y_{kind}_{lbl}"` */
  function PredictionName(kind: string, lbl: string): string {
    "y_" + kind + "_" + lbl
  }

  /** An `extract_predictions` entry for `lbl` holds exactly the logged vectors of that label. */
  ghost predicate EntryFor(ns: Namespace, lbl: string, entry: Dict<Value>) {
    DistinctKeys(entry) &&
    (forall k :: k in KeySet(entry) ==> k in Kinds && Get(entry, k) == Get(ns, PredictionName(k, lbl))) &&
    (forall k :: k in Kinds && PredictionName(k, lbl) in KeySet(ns) ==> k in KeySet(entry))
  }

  /**
   * `extract_predictions`: one non-empty entry per discovered label, in
   * sorted order, holding each of the true, predicted and probability
   * vectors that was logged under that label.
   */
  method ExtractPredictions(ns: Namespace) returns (result: Dict<Dict<Value>>)
    ensures DistinctKeys(result)
    ensures StrictlySorted(Keys(result))
    ensures forall l :: l in KeySet(result) <==> l in LabelSet(ns)
    ensures forall i :: 0 <= i < |result| ==> result[i].1 != [] && EntryFor(ns, result[i].0, result[i].1)
  {
    result := [];
    var labels := DiscoverLabels(ns);
    var i := 0;
    while i < |labels|
      invariant 0 <= i <= |labels|
      invariant Keys(result) == labels[..i]
      invariant forall j :: 0 <= j < |result| ==> result[j].1 != [] && EntryFor(ns, result[j].0, result[j].1)
    {
      var lbl := labels[i];
      var entry := CollectEntry(ns, lbl);
      LabelHasEntry(ns, lbl);
      assert entry != [] by {
        var k :| k in Kinds && PredictionName(k, lbl) in KeySet(ns);
        assert k in KeySet(entry);
      }
      KeysFollowLabels(result, labels, i, entry);
      result := result + [(lbl, entry)];
      i := i + 1;
    }
    assert labels[..|labels|] == labels;
    SortedKeysDistinct(result, labels);
  }

  /** A dictionary whose keys are a strictly sorted list has no key twice, and its keys are that list's members. */
  lemma SortedKeysDistinct<E>(d: Dict<E>, labels: seq<string>)
    requires Keys(d) == labels && StrictlySorted(labels)
    ensures DistinctKeys(d)
    ensures forall l :: l in KeySet(d) <==> l in labels
  {
    forall i, j | 0 <= i < j < |d| ensures d[i].0 != d[j].0 {
      assert Keys(d)[i] == d[i].0 && Keys(d)[j] == d[j].0;
      LessIrreflexive(d[i].0);
    }
    forall l | l in KeySet(d) ensures l in labels {
      var i :| 0 <= i < |d| && d[i].0 == l;
      assert Keys(d)[i] == l;
    }
    forall l | l in labels ensures l in KeySet(d) {
      var i :| 0 <= i < |labels| && labels[i] == l;
      assert Keys(d)[i] == d[i].0;
    }
  }

  /** Appending the entry of the next label keeps the result's keys a prefix of the labels. */
  lemma KeysFollowLabels<E>(result: Dict<E>, labels: seq<string>, i: int, entry: E)
    requires 0 <= i < |labels| && Keys(result) == labels[..i]
    ensures Keys(result + [(labels[i], entry)]) == labels[..i + 1]
  {
    var r := result + [(labels[i], entry)];
    assert forall j :: 0 <= j < |r| ==> Keys(r)[j] == labels[..i + 1][j];
  }

  /** The inner loop of `extract_predictions`: the logged vectors of one label. */
  method CollectEntry(ns: Namespace, lbl: string) returns (entry: Dict<Value>)
    ensures EntryFor(ns, lbl, entry)
  {
    entry := [];
    var t := 0;
    while t < |Kinds|
      invariant 0 <= t <= |Kinds|
      invariant EntryUpTo(ns, lbl, entry, t)
    {
      EntryStep(ns, lbl, entry, t);
      var found := Get(ns, PredictionName(Kinds[t], lbl));
      if found.Some? {
        entry := Put(entry, Kinds[t], found.value);
      }
      t := t + 1;
    }
    assert Kinds[..|Kinds|] == Kinds;
  }

  /** The entry after the first `t` kinds: `EntryFor` restricted to those kinds. */
  ghost predicate EntryUpTo(ns: Namespace, lbl: string, entry: Dict<Value>, t: int)
    requires 0 <= t <= |Kinds|
  {
    DistinctKeys(entry) &&
    (forall k :: k in KeySet(entry) ==> k in Kinds[..t] && Get(entry, k) == Get(ns, PredictionName(k, lbl))) &&
    (forall k :: k in Kinds[..t] && PredictionName(k, lbl) in KeySet(ns) ==> k in KeySet(entry))
  }

  /** Looking up one more kind, and storing it when present, extends the entry by that kind. */
  lemma EntryStep(ns: Namespace, lbl: string, entry: Dict<Value>, t: int)
    requires 0 <= t < |Kinds| && EntryUpTo(ns, lbl, entry, t)
    ensures var found := Get(ns, PredictionName(Kinds[t], lbl));
      EntryUpTo(ns, lbl, if found.Some? then Put(entry, Kinds[t], found.value) else entry, t + 1)
  {
    var kind := Kinds[t];
    var found := Get(ns, PredictionName(kind, lbl));
    assert Kinds[..t + 1] == Kinds[..t] + [kind];
    if found.Some? {
      EntryStepFound(ns, lbl, entry, t, found.value);
    }
  }

  lemma EntryStepFound(ns: Namespace, lbl: string, entry: Dict<Value>, t: int, v: Value)
    requires 0 <= t < |Kinds| && EntryUpTo(ns, lbl, entry, t)
    requires Get(ns, PredictionName(Kinds[t], lbl)) == Some(v)
    ensures EntryUpTo(ns, lbl, Put(entry, Kinds[t], v), t + 1)
  {
    var kind := Kinds[t];
    assert Kinds[..t + 1] == Kinds[..t] + [kind];
    assert kind !in Kinds[..t] by {
      assert Kinds[0] == "true" && Kinds[1] == "pred" && Kinds[2] == "prob";
    }
    var entry' := Put(entry, kind, v);
    PutDistinct(entry, kind, v);
    forall k | k in KeySet(entry')
      ensures k in Kinds[..t + 1] && Get(entry', k) == Get(ns, PredictionName(k, lbl))
    {
      PutGet(entry, kind, v, k);
    }
    forall k | k in Kinds[..t + 1] && PredictionName(k, lbl) in KeySet(ns)
      ensures k in KeySet(entry')
    {
    }
  }

  /** Every discovered label has at least one logged vector. */
  lemma LabelHasEntry(ns: Namespace, lbl: string)
    requires lbl in LabelSet(ns)
    ensures exists k :: k in Kinds && PredictionName(k, lbl) in KeySet(ns)
  {
    LabelSetMembers(ns, lbl);
    assert "y_true_" + lbl == PredictionName("true", lbl);
    assert "y_pred_" + lbl == PredictionName("pred", lbl);
    assert "y_prob_" + lbl == PredictionName("prob", lbl);
  }
}

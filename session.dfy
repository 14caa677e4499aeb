/**
 * The logging `Session` of build/lib/autoreport/session.py: a notebook
 * namespace and a parameter dictionary that the session fills in place,
 * handed to `run_experiment` when the session is finalised.
 */
module Session {
  import opened Wrappers
  import opened Runtime
  import opened Variables

  /** The namespace after `log_predictions(y_true, y_pred, y_prob, label)`. */
  function Logged(ns: Namespace, yTrue: Value, yPred: Value, yProb: Option<Value>, lbl: string): (r: Namespace)
    ensures DistinctKeys(ns) ==> DistinctKeys(r)
  {
    var withTrue := Put(ns, PredictionName("true", lbl), yTrue);
    var withPred := Put(withTrue, PredictionName("pred", lbl), yPred);
    PutDistinct(ns, PredictionName("true", lbl), yTrue);
    PutDistinct(withTrue, PredictionName("pred", lbl), yPred);
    if yProb.Some? then
      PutDistinct(withPred, PredictionName("prob", lbl), yProb.value);
      Put(withPred, PredictionName("prob", lbl), yProb.value)
    else withPred
  }

  /**
   * `log_predictions` stores the true and predicted vectors under the label,
   * the probabilities only when given, and leaves every other name alone.
   */
  lemma LoggedGet(ns: Namespace, yTrue: Value, yPred: Value, yProb: Option<Value>, lbl: string, k: string)
    ensures Get(Logged(ns, yTrue, yPred, yProb, lbl), k) ==
      if k == PredictionName("prob", lbl) && yProb.Some? then yProb
      else if k == PredictionName("pred", lbl) then Some(yPred)
      else if k == PredictionName("true", lbl) then Some(yTrue)
      else Get(ns, k)
  {
    var withTrue := Put(ns, PredictionName("true", lbl), yTrue);
    var withPred := Put(withTrue, PredictionName("pred", lbl), yPred);
    PutGet(ns, PredictionName("true", lbl), yTrue, k);
    PutGet(withTrue, PredictionName("pred", lbl), yPred, k);
    if yProb.Some? {
      PutGet(withPred, PredictionName("prob", lbl), yProb.value, k);
    }
  }

  /**
   * After `log_predictions(..., label=l)`, `discover_labels` finds `l`, keeps
   * every label it found before, and finds no label other than `l` besides those.
   */
  lemma LoggedLabels(ns: Namespace, yTrue: Value, yPred: Value, yProb: Option<Value>, lbl: string)
    ensures LabelSet(Logged(ns, yTrue, yPred, yProb, lbl)) == LabelSet(ns) + {lbl}
  {
    forall l ensures l in LabelSet(Logged(ns, yTrue, yPred, yProb, lbl)) <==> l in LabelSet(ns) + {lbl} {
      LoggedLabel(ns, yTrue, yPred, yProb, lbl, l);
    }
  }

  lemma LoggedLabel(ns: Namespace, yTrue: Value, yPred: Value, yProb: Option<Value>, lbl: string, l: string)
    ensures l in LabelSet(Logged(ns, yTrue, yPred, yProb, lbl)) <==> l in LabelSet(ns) || l == lbl
  {
    var r := Logged(ns, yTrue, yPred, yProb, lbl);
    LabelSetMembers(r, l);
    LabelSetMembers(ns, l);
    LoggedKeys(ns, yTrue, yPred, yProb, lbl, "y_true_" + l);
    LoggedKeys(ns, yTrue, yPred, yProb, lbl, "y_pred_" + l);
    LoggedKeys(ns, yTrue, yPred, yProb, lbl, "y_prob_" + l);
    if l != lbl {
      PrefixedDiffer("y_true_", l, lbl);
      PrefixedDiffer("y_pred_", l, lbl);
      PrefixedDiffer("y_prob_", l, lbl);
      PrefixesDiffer(l, lbl);
    }
  }

  /**
   * After `log_predictions`, the keys are the old ones plus `y_true_<label>`
   * and `y_pred_<label>`, and `y_prob_<label>` only with probabilities.
   */
  lemma LoggedKeys(ns: Namespace, yTrue: Value, yPred: Value, yProb: Option<Value>, lbl: string, k: string)
    ensures k in KeySet(Logged(ns, yTrue, yPred, yProb, lbl)) <==>
      k in KeySet(ns) || k == "y_true_" + lbl || k == "y_pred_" + lbl || (yProb.Some? && k == "y_prob_" + lbl)
  {
    assert PredictionName("true", lbl) == "y_true_" + lbl;
    assert PredictionName("pred", lbl) == "y_pred_" + lbl;
    assert PredictionName("prob", lbl) == "y_prob_" + lbl;
  }

  lemma PrefixedDiffer(p: string, a: string, b: string)
    requires a != b
    ensures p + a != p + b
  {
    assert (p + a)[|p|..] == a && (p + b)[|p|..] == b;
  }

  /** Keys built on two different prefixes of the same length never meet on different labels. */
  lemma PrefixesDiffer(a: string, b: string)
    ensures "y_true_" + a != "y_pred_" + b && "y_true_" + a != "y_prob_" + b
    ensures "y_pred_" + a != "y_true_" + b && "y_pred_" + a != "y_prob_" + b
    ensures "y_prob_" + a != "y_true_" + b && "y_prob_" + a != "y_pred_" + b
  {
    assert ("y_true_" + a)[3] == 'r' && ("y_pred_" + b)[3] == 'r' && ("y_prob_" + b)[3] == 'r';
    assert ("y_true_" + a)[2] == 't' && ("y_pred_" + b)[2] == 'p' && ("y_prob_" + b)[2] == 'p';
    assert ("y_pred_" + a)[2] == 'p' && ("y_true_" + b)[2] == 't';
    assert ("y_pred_" + a)[4] == 'e' && ("y_prob_" + b)[4] == 'o';
    assert ("y_prob_" + a)[2] == 'p' && ("y_prob_" + a)[4] == 'o' && ("y_pred_" + b)[4] == 'e';
  }

  /** What `finalize` passes on to `run_experiment`. */
  datatype RunRequest = RunRequest(code: string, namespace: Namespace, runName: string,
                                   stdout: string, stderr: string, error: Option<string>, durationS: real)

  /** The run `finalize` returns: the experiment's run with the session's parameters attached. */
  datatype FinalRun<R> = FinalRun(run: R, params: Dict<Value>)

  class Session {
    var name: string
    var namespace: Namespace
    var params: Dict<Value>

    /** Both dictionaries of a session are Python dicts: no key twice. */
    predicate Valid()
      reads this
    {
      DistinctKeys(namespace) && DistinctKeys(params)
    }

    /** `Session(name)`: the name, an empty namespace, no parameters. */
    constructor (name: string)
      ensures this.name == name && namespace == [] && params == []
      ensures Valid()
    {
      this.name := name;
      namespace := [];
      params := [];
    }

    /** `log_predictions`: three item assignments on the namespace, the last only with probabilities. */
    method LogPredictions(yTrue: Value, yPred: Value, yProb: Option<Value>, lbl: string)
      requires Valid()
      modifies this
      ensures namespace == Logged(old(namespace), yTrue, yPred, yProb, lbl)
      ensures name == old(name) && params == old(params)
      ensures Valid()
    {
      namespace := Put(namespace, PredictionName("true", lbl), yTrue);
      namespace := Put(namespace, PredictionName("pred", lbl), yPred);
      if yProb.Some? {
        namespace := Put(namespace, PredictionName("prob", lbl), yProb.value);
      }
    }

    /** `log_params`: `self.params.update(params)`. */
    method LogParams(p: Dict<Value>)
      requires Valid()
      modifies this
      ensures params == Update(old(params), p)
      ensures name == old(name) && namespace == old(namespace)
      ensures Valid()
    {
      params := Update(params, p);
    }

    /**
     * `finalize`: the experiment runs on the session's namespace under the
     * session's name, and the run it returns carries the session's parameters.
     */
    method Finalize<R>(code: string, stdout: string, stderr: string, error: Option<string>, durationS: real,
                       runExperiment: RunRequest -> R) returns (result: FinalRun<R>)
      ensures result.run == runExperiment(RunRequest(code, namespace, name, stdout, stderr, error, durationS))
      ensures result.params == params
    {
      var run := runExperiment(RunRequest(code, namespace, name, stdout, stderr, error, durationS));
      result := FinalRun(run, params);
    }
  }
}

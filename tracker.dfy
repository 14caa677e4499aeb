/**
 * The bookkeeping half of `run_experiment` in autoreport/tracker.py: linking
 * captured artifacts to the discovered models, harvesting metrics from the
 * namespace, and grouping them per model.  The model metadata enters as the
 * key list of `models_meta`, in insertion order.
 */
module Tracker {
  import opened Wrappers
  import opened Text
  import opened Runtime
  import opened Variables
  import opened Basic

  // ----- artifact linking -----

  /**
   * An `Artifact` record, with the fields the linking step reads and writes.
   * `meta` is declared here, as the linking step evidently intends; the
   * pydantic record of the source does not declare it (see `LinkRaisesAt`).
   */
  class Artifact {
    var name: string
    var meta: Option<FigureEntry>

    constructor (name: string)
      ensures this.name == name && meta == None
    {
      this.name := name;
      meta := None;
    }
  }

  /**
   * `for art in artifacts: link = mapping.get(art.name); if link: art.meta = ...`:
   * an artifact gets the model and data of its figure exactly when its name
   * is a key of the mapping (every entry is a non-empty dict, so truthy), and
   * keeps its meta otherwise.  An artifact listed twice is written twice with
   * the same value.
   */
  method LinkArtifacts(arts: seq<Artifact>, mapping: Dict<FigureEntry>)
    modifies set a | a in arts
    ensures forall a :: a in arts ==> a.name == old(a.name)
    ensures forall a :: a in arts ==>
      a.meta == if a.name in KeySet(mapping) then Get(mapping, a.name) else old(a.meta)
  {
    var i := 0;
    while i < |arts|
      invariant 0 <= i <= |arts|
      invariant forall a :: a in arts ==> a.name == old(a.name)
      invariant forall a :: a in arts ==>
        a.meta == if a in arts[..i] && a.name in KeySet(mapping) then Get(mapping, a.name) else old(a.meta)
    {
      var art := arts[i];
      assert arts[..i + 1] == arts[..i] + [art];
      var link := Get(mapping, art.name);
      if link.Some? {
        art.meta := Some(FigureEntry(link.value.model, link.value.data));
      }
      i := i + 1;
    }
    assert arts[..|arts|] == arts;
  }

  /** The fields the pydantic `Artifact` record declares. */
  const ArtifactFields: set<string> := {"name", "path", "kind", "mime", "sha256", "size_bytes"}

  /**
   * The linking loop as written: a pydantic record refuses an assignment to
   * a field it does not declare with a `ValueError`, and `Artifact` declares
   * no `meta`, so the loop raises at the first artifact whose name is a key
   * of the mapping.  The result is that artifact's position, or None when the
   * loop runs to the end.
   */
  function LinkRaisesAt(names: seq<string>, mapping: Dict<FigureEntry>): (r: Option<nat>)
    ensures r.None? <==> forall i :: 0 <= i < |names| ==> names[i] !in KeySet(mapping)
    ensures r.Some? ==> r.value < |names| && names[r.value] in KeySet(mapping)
    ensures r.Some? ==> forall j :: 0 <= j < r.value ==> names[j] !in KeySet(mapping)
  {
    if |names| == 0 then None
    else if names[0] in KeySet(mapping) && "meta" !in ArtifactFields then Some(0)
    else
      match LinkRaisesAt(names[1..], mapping)
      case None => None
      case Some(k) => Some(k + 1)
  }

  /**
   * A namespace with a model gives the mapping an entry `figure_1`, and the
   * first captured figure is named `figure_1`: linking raises at it.
   */
  lemma LinkRaisesOnFirstFigure(names: seq<string>, mapping: Dict<FigureEntry>)
    requires |names| > 0 && names[0] == FigureKey(1)
    requires |mapping| > 0 && mapping[0].0 == FigureKey(1)
    ensures LinkRaisesAt(names, mapping) == Some(0)
  {
    assert mapping[0].0 in KeySet(mapping);
  }

  // ----- metric harvesting -----

  /** `next((m for m in models_meta if m in k), None)` */
  function FirstMatch(models: seq<string>, k: string): (r: Option<string>)
    ensures r.None? <==> forall i :: 0 <= i < |models| ==> !Contains(k, models[i])
    ensures r.Some? ==>
      exists i :: 0 <= i < |models| && models[i] == r.value && Contains(k, r.value) && forall j :: 0 <= j < i ==> !Contains(k, models[j])
  {
    if |models| == 0 then None
    else if Contains(k, models[0]) then Some(models[0])
    else
      var r := FirstMatch(models[1..], k);
      assert forall j :: 1 <= j < |models| ==> models[j] == models[1..][j - 1];
      r
  }

  /** `k.replace(m, "")`; replacing the empty string by the empty string changes nothing. */
  function RemoveAll(k: string, m: string): string {
    if |m| == 0 then k else ReplaceAll(k, m, "")
  }

  /**
   * The metric a scalar variable `k` yields: under the first model whose name
   * occurs in `k`, keyed "model/short" with `short` the rest of the name
   * without that model and without surrounding underscores (or `k` itself
   * when nothing is left); keyed `k` when no model matches.
   */
  function ScalarMetric(models: seq<string>, k: string, x: real): (string, Metric) {
    var matched := FirstMatch(models, k);
    var short := if Truthy(matched) then Strip(RemoveAll(k, matched.value), {'_'}) else k;
    var name := if short != "" then short else k;
    if Truthy(matched) then (matched.value + "/" + name, Metric(name, x)) else (k, Metric(name, x))
  }

  /** `all(isinstance(x, (int, float)) for x in v.values())` */
  predicate AllScalar(items: seq<(string, Value)>) {
    forall i :: 0 <= i < |items| ==> items[i].1.form.Scalar?
  }

  /** The key of entry `subk` of a dict of scalars named `k`. */
  function SubKey(matched: Option<string>, k: string, subk: string): string {
    if Truthy(matched) then matched.value + "/" + subk else k + "/" + subk
  }

  /** The loop over a dict of scalars: one metric per entry, in the dict's order. */
  function DictMetrics(metrics: Dict<Metric>, matched: Option<string>, k: string, items: seq<(string, Value)>): Dict<Metric>
    requires AllScalar(items)
  {
    if |items| == 0 then metrics
    else
      var last := items[|items| - 1];
      Put(DictMetrics(metrics, matched, k, items[..|items| - 1]), SubKey(matched, k, last.0), Metric(last.0, last.1.form.number))
  }

  /** What one namespace variable adds to the metrics. */
  function AddVariable(models: seq<string>, metrics: Dict<Metric>, k: string, v: Value): Dict<Metric> {
    if StartsWith(k, "_") then metrics
    else match v.form
      case MetricObject(name, number) => Put(metrics, k, Metric(name, number))
      case Scalar(x) => var (key, met) := ScalarMetric(models, k, x); Put(metrics, key, met)
      case Dict(items) =>
        if items != [] && AllScalar(items) then DictMetrics(metrics, FirstMatch(models, k), k, items) else metrics
      case _ => metrics
  }

  /** The metrics harvested from a namespace, visited in order. */
  function MetricsOf(models: seq<string>, ns: Namespace): Dict<Metric> {
    if |ns| == 0 then []
    else AddVariable(models, MetricsOf(models, ns[..|ns| - 1]), ns[|ns| - 1].0, ns[|ns| - 1].1)
  }

  /** The namespace without the names starting with "_". */
  function Public(ns: Namespace): (r: Namespace)
    ensures forall i :: 0 <= i < |r| ==> !StartsWith(r[i].0, "_")
    ensures forall x :: x in r <==> x in ns && !StartsWith(x.0, "_")
  {
    if |ns| == 0 then []
    else
      assert forall x :: x in ns <==> x in ns[..|ns| - 1] || x == ns[|ns| - 1];
      if StartsWith(ns[|ns| - 1].0, "_") then Public(ns[..|ns| - 1])
      else Public(ns[..|ns| - 1]) + [ns[|ns| - 1]]
  }

  /** Dropping the "_" names keeps namespace order: it distributes over concatenation. */
  lemma {:induction false} PublicAppend(a: Namespace, b: Namespace)
    ensures Public(a + b) == Public(a) + Public(b)
    decreases |b|
  {
    if |b| > 0 {
      var b' := b[..|b| - 1];
      assert (a + b)[..|a + b| - 1] == a + b';
      assert (a + b)[|a + b| - 1] == b[|b| - 1];
      PublicAppend(a, b');
    } else {
      assert a + b == a;
    }
  }

  /** Names starting with "_" never produce metrics: dropping them changes nothing. */
  lemma {:induction false} PrivateNamesIgnored(models: seq<string>, ns: Namespace)
    ensures MetricsOf(models, ns) == MetricsOf(models, Public(ns))
  {
    if |ns| > 0 {
      var init := ns[..|ns| - 1];
      PrivateNamesIgnored(models, init);
      var p := Public(init);
      if !StartsWith(ns[|ns| - 1].0, "_") {
        assert (p + [ns[|ns| - 1]])[..|p|] == p;
      }
    }
  }

  /** Harvesting only ever adds or overwrites keys. */
  lemma AddVariableKeeps(models: seq<string>, metrics: Dict<Metric>, k: string, v: Value)
    ensures KeySet(metrics) <= KeySet(AddVariable(models, metrics, k, v))
    ensures DistinctKeys(metrics) ==> DistinctKeys(AddVariable(models, metrics, k, v))
  {
    if !StartsWith(k, "_") && v.form.Dict? && v.form.items != [] && AllScalar(v.form.items) {
      DictMetricsKeeps(metrics, FirstMatch(models, k), k, v.form.items);
    } else if !StartsWith(k, "_") && (v.form.Scalar? || v.form.MetricObject?) {
      var key := if v.form.Scalar? then ScalarMetric(models, k, v.form.number).0 else k;
      var met := if v.form.Scalar? then ScalarMetric(models, k, v.form.number).1 else Metric(v.form.name, v.form.number);
      PutDistinct(metrics, key, met);
    }
  }

  /** The keys a dict of scalars named `k` is spread over. */
  function SubKeys(matched: Option<string>, k: string, items: seq<(string, Value)>): (r: set<string>)
    ensures forall i :: 0 <= i < |items| ==> SubKey(matched, k, items[i].0) in r
    ensures forall key :: key in r ==> exists i :: 0 <= i < |items| && key == SubKey(matched, k, items[i].0)
  {
    if |items| == 0 then {}
    else
      var init := items[..|items| - 1];
      assert forall i :: 0 <= i < |init| ==> init[i] == items[i];
      SubKeys(matched, k, init) + {SubKey(matched, k, items[|items| - 1].0)}
  }

  /** Spreading a dict adds exactly its sub-keys and keeps the keys distinct. */
  lemma {:induction false} DictMetricsKeeps(metrics: Dict<Metric>, matched: Option<string>, k: string, items: seq<(string, Value)>)
    requires AllScalar(items)
    ensures KeySet(DictMetrics(metrics, matched, k, items)) == KeySet(metrics) + SubKeys(matched, k, items)
    ensures DistinctKeys(metrics) ==> DistinctKeys(DictMetrics(metrics, matched, k, items))
  {
    if |items| > 0 {
      var init := items[..|items| - 1];
      var last := items[|items| - 1];
      DictMetricsKeeps(metrics, matched, k, init);
      PutDistinct(DictMetrics(metrics, matched, k, init), SubKey(matched, k, last.0), Metric(last.0, last.1.form.number));
    }
  }

  /** The harvested metrics form a dict: no key twice. */
  lemma {:induction false} MetricsOfDistinct(models: seq<string>, ns: Namespace)
    ensures DistinctKeys(MetricsOf(models, ns))
  {
    if |ns| > 0 {
      MetricsOfDistinct(models, ns[..|ns| - 1]);
      AddVariableKeeps(models, MetricsOf(models, ns[..|ns| - 1]), ns[|ns| - 1].0, ns[|ns| - 1].1);
    }
  }

  /**
   * The metric loop of `run_experiment`, proved against `MetricsOf`: a
   * `Metric` is kept under its own name, a scalar goes through the model
   * matching, and a non-empty dict of scalars is spread entry by entry.
   */
  method HarvestMetrics(models: seq<string>, ns: Namespace) returns (metrics: Dict<Metric>)
    ensures metrics == MetricsOf(models, ns)
    ensures DistinctKeys(metrics)
  {
    metrics := [];
    var i := 0;
    while i < |ns|
      invariant 0 <= i <= |ns|
      invariant metrics == MetricsOf(models, ns[..i])
    {
      assert ns[..i + 1][..i] == ns[..i];
      var (k, v) := ns[i];
      if StartsWith(k, "_") {
        i := i + 1;
        continue;
      }
      match v.form {
        case MetricObject(name, number) =>
          metrics := Put(metrics, k, Metric(name, number));
        case Scalar(x) =>
          var matched := FirstMatch(models, k);
          var short := if Truthy(matched) then Strip(RemoveAll(k, matched.value), {'_'}) else k;
          var name := if short != "" then short else k;
          var key := if Truthy(matched) then matched.value + "/" + name else k;
          metrics := Put(metrics, key, Metric(name, x));
        case Dict(items) =>
          if items != [] && AllScalar(items) {
            metrics := SpreadDict(metrics, FirstMatch(models, k), k, items);
          }
        case _ =>
      }
      i := i + 1;
    }
    assert ns[..|ns|] == ns;
    MetricsOfDistinct(models, ns);
  }

  /** The inner loop over a dict of scalars. */
  method SpreadDict(metrics0: Dict<Metric>, matched: Option<string>, k: string, items: seq<(string, Value)>)
    returns (metrics: Dict<Metric>)
    requires AllScalar(items)
    ensures metrics == DictMetrics(metrics0, matched, k, items)
  {
    metrics := metrics0;
    var j := 0;
    ScalarPrefix(items, 0);
    while j < |items|
      invariant 0 <= j <= |items|
      invariant AllScalar(items[..j])
      invariant metrics == DictMetrics(metrics0, matched, k, items[..j])
    {
      ScalarPrefix(items, j + 1);
      assert items[..j + 1][..j] == items[..j];
      var (subk, subv) := items[j];
      var key := if Truthy(matched) then matched.value + "/" + subk else k + "/" + subk;
      metrics := Put(metrics, key, Metric(subk, subv.form.number));
      j := j + 1;
    }
    assert items[..|items|] == items;
  }

  lemma ScalarPrefix(items: seq<(string, Value)>, j: int)
    requires AllScalar(items) && 0 <= j <= |items|
    ensures AllScalar(items[..j])
  {
    assert forall i :: 0 <= i < j ==> items[..j][i] == items[i];
  }

  // ----- grouping -----

  /** One entry of a group: `{"key": key, "name": met.name, "value": met.value}`. */
  datatype GroupEntry = GroupEntry(key: string, name: string, value: real)

  function EntryOf(m: (string, Metric)): GroupEntry {
    GroupEntry(m.0, m.1.name, m.1.value)
  }

  /**
   * The group of a metric key: the text before the first "/", or the sole
   * model when there is exactly one, or "ungrouped".
   */
  function GroupOf(models: seq<string>, key: string): (g: string)
    ensures '/' in key ==> '/' !in g && StartsWith(key, g + "/")
    ensures '/' !in key ==> g == if |models| == 1 then models[0] else "ungrouped"
  {
    if '/' in key then
      SplitHead(key, '/');
      Split(key, '/')[0]
    else if |models| == 1 then models[0] else "ungrouped"
  }

  /** `key.split("/", 1)[0]` is the text before the first separator. */
  lemma {:induction false} SplitHead(s: string, sep: char)
    requires sep in s
    ensures sep !in Split(s, sep)[0] && StartsWith(s, Split(s, sep)[0] + [sep])
    decreases |s|
  {
    var h := Split(s, sep)[0];
    if s[0] != sep {
      assert sep in s[1..] by {
        var i :| 0 <= i < |s| && s[i] == sep;
        assert s[1..][i - 1] == sep;
      }
      SplitHead(s[1..], sep);
      var t := Split(s[1..], sep)[0];
      assert h == [s[0]] + t;
      assert s == [s[0]] + s[1..];
      assert (h + [sep]) == [s[0]] + (t + [sep]);
    } else {
      assert h == "";
    }
  }

  /** `grouped.setdefault(g, []).append(e)` */
  function Append(grouped: Dict<seq<GroupEntry>>, g: string, e: GroupEntry): Dict<seq<GroupEntry>> {
    Put(grouped, g, Get(grouped, g).GetOr([]) + [e])
  }

  /** The grouping loop, as a fold over the metrics in order. */
  function Grouped(models: seq<string>, metrics: Dict<Metric>): Dict<seq<GroupEntry>> {
    if |metrics| == 0 then []
    else
      var last := metrics[|metrics| - 1];
      Append(Grouped(models, metrics[..|metrics| - 1]), GroupOf(models, last.0), EntryOf(last))
  }

  /** The metrics of group `g`, in order (the reference definition of a group). */
  function Members(models: seq<string>, metrics: Dict<Metric>, g: string): (r: seq<GroupEntry>)
    ensures forall e :: e in r <==> exists i :: 0 <= i < |metrics| && GroupOf(models, metrics[i].0) == g && e == EntryOf(metrics[i])
  {
    if |metrics| == 0 then []
    else
      var init := metrics[..|metrics| - 1];
      var last := metrics[|metrics| - 1];
      var r := Members(models, init, g);
      assert forall i :: 0 <= i < |init| ==> init[i] == metrics[i];
      if GroupOf(models, last.0) == g then r + [EntryOf(last)] else r
  }

  /** Each group holds exactly the metrics whose key belongs to it, in their order; no group is empty. */
  lemma {:induction false} GroupedMembers(models: seq<string>, metrics: Dict<Metric>, g: string)
    ensures Get(Grouped(models, metrics), g) == if Members(models, metrics, g) == [] then None else Some(Members(models, metrics, g))
  {
    if |metrics| > 0 {
      var init := metrics[..|metrics| - 1];
      var last := metrics[|metrics| - 1];
      GroupedMembers(models, init, g);
      var before := Grouped(models, init);
      var h := GroupOf(models, last.0);
      PutGet(before, h, Get(before, h).GetOr([]) + [EntryOf(last)], g);
      if h == g {
        GroupedMembers(models, init, h);
      }
    }
  }

  /** The number of entries over all groups. */
  function Total(grouped: Dict<seq<GroupEntry>>): nat {
    if |grouped| == 0 then 0 else |grouped[0].1| + Total(grouped[1..])
  }

  lemma {:induction false} TotalPut(d: Dict<seq<GroupEntry>>, k: string, v: seq<GroupEntry>)
    ensures Total(Put(d, k, v)) + |Get(d, k).GetOr([])| == Total(d) + |v|
  {
    if |d| > 0 && d[0].0 != k {
      TotalPut(d[1..], k, v);
      assert Put(d, k, v)[1..] == Put(d[1..], k, v);
    } else if |d| > 0 {
      assert Put(d, k, v)[1..] == d[1..];
    }
  }

  /** Every metric lands in exactly one group: the groups together hold as many entries as there are metrics. */
  lemma {:induction false} GroupedTotal(models: seq<string>, metrics: Dict<Metric>)
    ensures Total(Grouped(models, metrics)) == |metrics|
  {
    if |metrics| > 0 {
      var init := metrics[..|metrics| - 1];
      var last := metrics[|metrics| - 1];
      GroupedTotal(models, init);
      var before := Grouped(models, init);
      var h := GroupOf(models, last.0);
      TotalPut(before, h, Get(before, h).GetOr([]) + [EntryOf(last)]);
    }
  }

  /** The grouping loop of `run_experiment`, proved against `Grouped`. */
  method GroupMetrics(models: seq<string>, metrics: Dict<Metric>) returns (grouped: Dict<seq<GroupEntry>>)
    ensures grouped == Grouped(models, metrics)
    ensures Total(grouped) == |metrics|
    ensures forall g :: Get(grouped, g) == if Members(models, metrics, g) == [] then None else Some(Members(models, metrics, g))
  {
    grouped := [];
    var i := 0;
    while i < |metrics|
      invariant 0 <= i <= |metrics|
      invariant grouped == Grouped(models, metrics[..i])
    {
      assert metrics[..i + 1][..i] == metrics[..i];
      var (key, met) := metrics[i];
      var g: string;
      if '/' in key {
        g := Split(key, '/')[0];
      } else if |models| == 1 {
        g := models[0];
      } else {
        g := "ungrouped";
      }
      var entries := Get(grouped, g).GetOr([]);
      grouped := Put(grouped, g, entries + [GroupEntry(key, met.name, met.value)]);
      i := i + 1;
    }
    assert metrics[..|metrics|] == metrics;
    GroupedTotal(models, metrics);
    forall g ensures Get(grouped, g) == if Members(models, metrics, g) == [] then None else Some(Members(models, metrics, g)) {
      GroupedMembers(models, metrics, g);
    }
  }

  /**
   * Harvesting and grouping agree: a scalar named after a model (with no "/"
   * in the model's name) is grouped under that model; an unmatched scalar
   * whose name has no "/" goes to the sole model, or to "ungrouped".
   */
  lemma ScalarGroup(models: seq<string>, k: string, x: real)
    ensures var matched := FirstMatch(models, k);
      Truthy(matched) && '/' !in matched.value ==> GroupOf(models, ScalarMetric(models, k, x).0) == matched.value
    ensures !Truthy(FirstMatch(models, k)) && '/' !in k ==>
      GroupOf(models, ScalarMetric(models, k, x).0) == if |models| == 1 then models[0] else "ungrouped"
  {
    var matched := FirstMatch(models, k);
    if Truthy(matched) && '/' !in matched.value {
      var key := ScalarMetric(models, k, x).0;
      var m := matched.value;
      var rest := key[|m| + 1..];
      assert key == m + "/" + rest;
      assert key[|m|] == '/';
      SplitHeadIs(m, rest, '/');
    }
  }

  /** A separator-free head is what `split` returns first. */
  lemma SplitHeadIs(m: string, rest: string, sep: char)
    requires sep !in m
    ensures Split(m + [sep] + rest, sep)[0] == m
  {
    SplitAfterPiece(m, [sep] + rest, sep);
    assert m + [sep] + rest == m + ([sep] + rest);
  }
}

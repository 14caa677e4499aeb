/**
 * The formatting helpers of build/lib/autoreport/core/utils.py: the
 * `human_time` rendering of a duration and the `normalize_context` pass that
 * turns artifact paths into strings.
 */
module Utils {
  import opened Wrappers
  import opened Text
  import opened Runtime

  // ----- human_time -----

  /**
   * `m, s = divmod(n, 60); h, m = divmod(m, 60)`.  Python's `divmod` floors;
   * for the positive divisor 60 that is Dafny's Euclidean `/` and `%`.
   */
  function HumanTimeParts(n: int): (p: (int, int, int))
    ensures p.0 * 3600 + p.1 * 60 + p.2 == n
    ensures 0 <= p.1 < 60 && 0 <= p.2 < 60
    ensures n >= 0 ==> p.0 >= 0
  {
    var m := n / 60;
    var s := n % 60;
    (m / 60, m % 60, s)
  }

  /** Hours, minutes and seconds in range are the only split of a duration. */
  lemma HumanTimePartsUnique(n: int, h: int, m: int, s: int)
    requires h * 3600 + m * 60 + s == n
    requires 0 <= m < 60 && 0 <= s < 60
    ensures HumanTimeParts(n) == (h, m, s)
  {
    var p := HumanTimeParts(n);
    DivModUnique(h * 60 + m, s, n);
    assert p.2 == s && n / 60 == h * 60 + m;
    DivModUnique(h, m, h * 60 + m);
  }

  /** Euclidean division by 60 has one quotient and one remainder. */
  lemma DivModUnique(q: int, r: int, n: int)
    requires q * 60 + r == n && 0 <= r < 60
    ensures n / 60 == q && n % 60 == r
  {
    var q' := n / 60;
    var r' := n % 60;
    assert (q - q') * 60 == r' - r;
  }

  /** `human_time(seconds)` with `n = int(seconds)`: hours only when there are any. */
  function HumanTime(n: int): string {
    var p := HumanTimeParts(n);
    Render(p.0, p.1, p.2)
  }

  /** `f"{h}h {m}m {s}s"` when `h` is non-zero, else `f"{m}m {s}s"`. */
  function Render(h: int, m: int, s: int): string {
    if h != 0 then IntToString(h) + "h " + IntToString(m) + "m " + IntToString(s) + "s"
    else IntToString(m) + "m " + IntToString(s) + "s"
  }

  /** The space-separated fields of `human_time`. */
  function HumanTimeFields(n: int): seq<string> {
    var p := HumanTimeParts(n);
    Fields(p.0, p.1, p.2)
  }

  function Fields(h: int, m: int, s: int): seq<string> {
    if h != 0 then [IntToString(h) + "h", IntToString(m) + "m", IntToString(s) + "s"]
    else [IntToString(m) + "m", IntToString(s) + "s"]
  }

  /** `int(t)` on the rendering of an integer. */
  function ParseInt(t: string): Option<int> {
    if |t| > 0 && t[0] == '-' && AllDigits(t[1..]) then Some(0 - DigitsValue(t[1..]))
    else if AllDigits(t) then Some(DigitsValue(t))
    else None
  }

  lemma ParseIntToString(i: int)
    ensures ParseInt(IntToString(i)) == Some(i)
    ensures ' ' !in IntToString(i)
  {
    if i < 0 {
      NegativeParses(-i);
      NoSpaceInDigits(NatToString(-i));
    } else {
      NaturalParses(i);
      NoSpaceInDigits(NatToString(i));
    }
  }

  lemma NaturalParses(n: nat)
    ensures ParseInt(NatToString(n)) == Some(n)
  {
    var t := NatToString(n);
    NatToStringRoundTrip(n);
    assert '0' <= t[0] <= '9';
  }

  lemma NegativeParses(n: nat)
    requires n > 0
    ensures ParseInt("-" + NatToString(n)) == Some(0 - n)
  {
    var t := "-" + NatToString(n);
    assert t[1..] == NatToString(n);
    NatToStringRoundTrip(n);
  }

  lemma NoSpaceInDigits(t: string)
    requires AllDigits(t)
    ensures ' ' !in t
  {
    assert forall i :: 0 <= i < |t| ==> t[i] != ' ';
  }

  /** A number followed by its unit letter. */
  function ParseField(f: string, unit: char): Option<int> {
    if |f| > 0 && f[|f| - 1] == unit then ParseInt(f[..|f| - 1]) else None
  }

  lemma ParseFieldOf(i: int, unit: char)
    ensures ParseField(IntToString(i) + [unit], unit) == Some(i)
  {
    assert (IntToString(i) + [unit])[..|IntToString(i)|] == IntToString(i);
    ParseIntToString(i);
  }

  /** Reading a `human_time` rendering back: `"{h}h {m}m {s}s"` or `"{m}m {s}s"`. */
  function ParseHumanTime(t: string): Option<int> {
    ParseHumanFields(Split(t, ' '))
  }

  function ParseHumanFields(fs: seq<string>): Option<int> {
    if |fs| == 3 then
      match (ParseField(fs[0], 'h'), ParseField(fs[1], 'm'), ParseField(fs[2], 's'))
      case (Some(h), Some(m), Some(s)) => Some(h * 3600 + m * 60 + s)
      case _ => None
    else if |fs| == 2 then
      match (ParseField(fs[0], 'm'), ParseField(fs[1], 's'))
      case (Some(m), Some(s)) => Some(m * 60 + s)
      case _ => None
    else None
  }

  /** `human_time` loses nothing: its rendering reads back as the whole number of seconds. */
  lemma HumanTimeRoundTrip(n: int)
    ensures Split(HumanTime(n), ' ') == HumanTimeFields(n)
    ensures ParseHumanTime(HumanTime(n)) == Some(n)
  {
    HumanTimeSplits(n);
    HumanTimeParses(n);
  }

  lemma HumanTimeParses(n: int)
    ensures ParseHumanTime(HumanTime(n)) == Some(n)
  {
    var p := HumanTimeParts(n);
    var hs, ms, ss := IntToString(p.0) + "h", IntToString(p.1) + "m", IntToString(p.2) + "s";
    HumanTimeSplits(n);
    ParseOfFields(HumanTime(n), HumanTimeFields(n));
    ParseFieldOf(p.0, 'h');
    ParseFieldOf(p.1, 'm');
    ParseFieldOf(p.2, 's');
    if p.0 != 0 {
      assert HumanTimeFields(n) == [hs, ms, ss];
      ThreeFieldsParse(hs, ms, ss, p.0, p.1, p.2, n);
    } else {
      assert HumanTimeFields(n) == [ms, ss];
      TwoFieldsParse(ms, ss, p.1, p.2, n);
    }
  }

  lemma HumanTimeSplits(n: int)
    ensures Split(HumanTime(n), ' ') == HumanTimeFields(n)
  {
    HumanTimeJoinsFields(n);
    SplitJoinRoundTrip(HumanTimeFields(n), ' ');
  }

  lemma ParseOfFields(t: string, fs: seq<string>)
    requires Split(t, ' ') == fs
    ensures ParseHumanTime(t) == ParseHumanFields(fs)
  {
  }

  lemma ThreeFieldsParse(hs: string, ms: string, ss: string, h: int, m: int, s: int, total: int)
    requires ParseField(hs, 'h') == Some(h) && ParseField(ms, 'm') == Some(m) && ParseField(ss, 's') == Some(s)
    requires h * 3600 + m * 60 + s == total
    ensures ParseHumanFields([hs, ms, ss]) == Some(total)
  {
  }

  lemma TwoFieldsParse(ms: string, ss: string, m: int, s: int, total: int)
    requires ParseField(ms, 'm') == Some(m) && ParseField(ss, 's') == Some(s)
    requires m * 60 + s == total
    ensures ParseHumanFields([ms, ss]) == Some(total)
  {
  }

  /** `human_time` is its fields joined by single spaces, and no field holds a space. */
  lemma HumanTimeJoinsFields(n: int)
    ensures |HumanTimeFields(n)| >= 1
    ensures forall i :: 0 <= i < |HumanTimeFields(n)| ==> ' ' !in HumanTimeFields(n)[i]
    ensures HumanTime(n) == Join(HumanTimeFields(n), ' ')
  {
    var p := HumanTimeParts(n);
    RenderJoinsFields(p.0, p.1, p.2);
  }

  lemma RenderJoinsFields(h: int, m: int, s: int)
    ensures |Fields(h, m, s)| >= 1
    ensures forall i :: 0 <= i < |Fields(h, m, s)| ==> ' ' !in Fields(h, m, s)[i]
    ensures Render(h, m, s) == Join(Fields(h, m, s), ' ')
  {
    FieldHasNoSpace(h, 'h');
    FieldHasNoSpace(m, 'm');
    FieldHasNoSpace(s, 's');
    Spaced(IntToString(h), IntToString(m), IntToString(s));
  }

  /** The two layouts of `human_time` as joins of their fields. */
  lemma Spaced(x: string, y: string, z: string)
    ensures y + "m " + z + "s" == Join([y + "m", z + "s"], ' ')
    ensures x + "h " + y + "m " + z + "s" == Join([x + "h", y + "m", z + "s"], ' ')
  {
    var a, b, c := x + "h", y + "m", z + "s";
    JoinTwo(b, c);
    JoinThree(a, b, c);
  }

  lemma JoinTwo(b: string, c: string)
    ensures Join([b, c], ' ') == b + [' '] + c
  {
    assert [b, c][1..] == [c];
  }

  lemma JoinThree(a: string, b: string, c: string)
    ensures Join([a, b, c], ' ') == a + [' '] + (b + [' '] + c)
  {
    assert [a, b, c][1..] == [b, c];
    JoinTwo(b, c);
  }

  lemma FieldHasNoSpace(i: int, unit: char)
    requires unit != ' '
    ensures ' ' !in IntToString(i) + [unit]
  {
    ParseIntToString(i);
  }

  /** The hours field appears exactly when the duration reaches an hour (or is negative). */
  lemma HumanTimeShowsHours(n: int)
    ensures |Split(HumanTime(n), ' ')| == 3 <==> n < 0 || n >= 3600
    ensures |Split(HumanTime(n), ' ')| == 2 <==> 0 <= n < 3600
  {
    HumanTimeRoundTrip(n);
    var (h, m, s) := HumanTimeParts(n);
    if 0 <= n < 3600 {
      HumanTimePartsUnique(n, 0, n / 60, n % 60);
    }
  }

  // ----- normalize_context -----

  /** A context value, as far as `normalize_context` tells them apart. */
  datatype Val =
    | PathVal(posix: string)          // a `pathlib.Path`, by its `as_posix()` rendering
    | Str(text: string)
    | DictVal(items: Dict<Val>)
    | ListVal(elems: seq<Val>)        // a list (or tuple) of values
    | Other(truthy: bool)             // `None`, numbers and anything else, by truthiness

  /** Python truthiness. */
  predicate Truthy(v: Val) {
    match v
    case PathVal(_) => true
    case Str(t) => t != ""
    case DictVal(items) => items != []
    case ListVal(es) => es != []
    case Other(t) => t
  }

  /** `art["path"]` after the normalisation: a `Path` becomes its posix string. */
  function PosixPath(v: Option<Val>): Option<Val> {
    match v
    case Some(PathVal(p)) => Some(Str(p))
    case _ => v
  }

  /**
   * One artifact: `art.get("path")` needs a dict (`None` when it is not one,
   * for the `AttributeError`), and a `Path` under "path" is rewritten.
   */
  function NormalizeArtifact(art: Val): (r: Option<Val>)
    ensures r.Some? <==> art.DictVal?
  {
    match art
    case DictVal(items) =>
      var p := Get(items, "path");
      if p.Some? && p.value.PathVal? then Some(DictVal(Put(items, "path", Str(p.value.posix))))
      else Some(art)
    case _ => None
  }

  /** Normalising an artifact keeps its keys and rewrites only a `Path` under "path". */
  lemma NormalizeArtifactSpec(art: Val, k: string)
    requires art.DictVal?
    ensures var r := NormalizeArtifact(art).value;
      r.DictVal? && KeySet(r.items) == KeySet(art.items) &&
      Get(r.items, k) == if k == "path" then PosixPath(Get(art.items, "path")) else Get(art.items, k)
  {
    var p := Get(art.items, "path");
    if p.Some? && p.value.PathVal? {
      PutGet(art.items, "path", Str(p.value.posix), k);
    }
  }

  /** The loop over `run["artifacts"]` when it is a list: stops at the first non-dict. */
  function NormalizeAll(arts: seq<Val>): (r: Option<seq<Val>>)
    ensures r.Some? <==> forall i :: 0 <= i < |arts| ==> arts[i].DictVal?
    ensures r.Some? ==> |r.value| == |arts| && forall i :: 0 <= i < |arts| ==> Some(r.value[i]) == NormalizeArtifact(arts[i])
  {
    if |arts| == 0 then Some([])
    else
      var init := arts[..|arts| - 1];
      assert forall i :: 0 <= i < |init| ==> init[i] == arts[i];
      match (NormalizeAll(init), NormalizeArtifact(arts[|arts| - 1]))
      case (Some(rs), Some(a)) => Some(rs + [a])
      case _ => None
  }

  /** `for art in run["artifacts"]` on each kind of value; `None` where Python raises. */
  function NormalizeArtifacts(arts: Val): Option<Val> {
    match arts
    case ListVal(es) => (match NormalizeAll(es) case Some(rs) => Some(ListVal(rs)) case None => None)
    case DictVal(items) => if items == [] then Some(arts) else None  // iterates keys: `str` has no `get`
    case Str(t) => if t == "" then Some(arts) else None              // iterates characters: likewise
    case _ => None                                                   // not iterable
  }

  /** What `run and "artifacts" in run` decides. */
  datatype Step = Untouched | Normalize(run: Dict<Val>, arts: Val) | Raises

  function Decide(context: Dict<Val>): Step {
    match Get(context, "run")
    case None => Untouched
    case Some(run) =>
      if !Truthy(run) then Untouched
      else match run
        case DictVal(items) =>
          if "artifacts" in KeySet(items) then Normalize(items, Get(items, "artifacts").value) else Untouched
        case ListVal(es) => if Str("artifacts") in es then Raises else Untouched  // `run["artifacts"]` on a list
        case Str(t) => if Contains(t, "artifacts") then Raises else Untouched   // `run["artifacts"]` on a str
        case _ => Raises                                                       // `in` is not supported
  }

  /**
   * `normalize_context`: the context with the run's artifact paths rewritten
   * in place, or `None` where the code raises.
   */
  function NormalizedContext(context: Dict<Val>): Option<Dict<Val>> {
    match Decide(context)
    case Untouched => Some(context)
    case Raises => None
    case Normalize(run, arts) =>
      match NormalizeArtifacts(arts)
      case None => None
      case Some(arts') => Some(Put(context, "run", DictVal(Put(run, "artifacts", arts'))))
  }

  /** A context without a run, or whose run is a dict without artifacts, is returned as it is. */
  lemma NormalizeWithoutArtifacts(context: Dict<Val>)
    requires "run" !in KeySet(context) ||
      (Get(context, "run").value.DictVal? && "artifacts" !in KeySet(Get(context, "run").value.items))
    ensures NormalizedContext(context) == Some(context)
  {
  }

  /**
   * Normalising changes nothing but the run's "artifacts" entry, and in it
   * only the "path" entries, each turned from a `Path` into its posix string.
   */
  lemma NormalizeChangesOnlyPaths(context: Dict<Val>, k: string)
    requires Decide(context).Normalize? && Decide(context).arts.ListVal?
    requires NormalizedContext(context).Some?
    ensures var c := NormalizedContext(context).value;
      var run := Decide(context).run;
      var es := Decide(context).arts.elems;
      KeySet(c) == KeySet(context) &&
      (k != "run" ==> Get(c, k) == Get(context, k)) &&
      exists rs: seq<Val> ::
        Get(c, "run") == Some(DictVal(Put(run, "artifacts", ListVal(rs)))) &&
        |rs| == |es| && forall i :: 0 <= i < |es| ==> Some(rs[i]) == NormalizeArtifact(es[i])
  {
    var run := Decide(context).run;
    var rs := NormalizeAll(Decide(context).arts.elems).value;
    var v := DictVal(Put(run, "artifacts", ListVal(rs)));
    PutGet(context, "run", v, k);
    PutGet(context, "run", v, "run");
  }

  lemma NormalizeArtifactIdempotent(art: Val)
    requires NormalizeArtifact(art).Some?
    ensures NormalizeArtifact(NormalizeArtifact(art).value) == NormalizeArtifact(art)
  {
    var a := NormalizeArtifact(art).value;
    var p := Get(art.items, "path");
    if p.Some? && p.value.PathVal? {
      PutGet(art.items, "path", Str(p.value.posix), "path");
    }
  }

  lemma {:induction false} NormalizeAllIdempotent(arts: seq<Val>)
    requires NormalizeAll(arts).Some?
    ensures NormalizeAll(NormalizeAll(arts).value) == NormalizeAll(arts)
  {
    var rs := NormalizeAll(arts).value;
    forall i | 0 <= i < |arts| ensures Some(rs[i]) == NormalizeArtifact(rs[i]) {
      NormalizeArtifactIdempotent(arts[i]);
    }
    NormalizeAllPointwise(rs, rs);
  }

  /** Two lists normalise to the same list when they agree element by element. */
  lemma {:induction false} NormalizeAllPointwise(arts: seq<Val>, rs: seq<Val>)
    requires |arts| == |rs|
    requires forall i :: 0 <= i < |arts| ==> NormalizeArtifact(arts[i]) == Some(rs[i])
    ensures NormalizeAll(arts) == Some(rs)
  {
    if |arts| > 0 {
      var n := |arts| - 1;
      var init, done := arts[..n], rs[..n];
      forall i | 0 <= i < n
        ensures NormalizeArtifact(init[i]) == Some(done[i])
      {
        assert init[i] == arts[i] && done[i] == rs[i];
      }
      NormalizeAllPointwise(init, done);
      SplitLast(rs);
      assert NormalizeAll(arts) == Some(done + [rs[n]]);
    }
  }

  lemma SplitLast<T>(s: seq<T>)
    requires |s| > 0
    ensures s[..|s| - 1] + [s[|s| - 1]] == s
  {
  }

  lemma NormalizeArtifactsIdempotent(arts: Val)
    requires NormalizeArtifacts(arts).Some?
    ensures NormalizeArtifacts(NormalizeArtifacts(arts).value) == NormalizeArtifacts(arts)
  {
    if arts.ListVal? {
      NormalizeAllIdempotent(arts.elems);
    }
  }

  /** A context whose run holds artifacts is normalised again on its run and those artifacts. */
  lemma DecideNormalized(context: Dict<Val>, run: Dict<Val>, arts: Val)
    ensures var run' := Put(run, "artifacts", arts);
      Decide(Put(context, "run", DictVal(run'))) == Normalize(run', arts)
  {
    var run' := Put(run, "artifacts", arts);
    PutGet(context, "run", DictVal(run'), "run");
    PutGet(run, "artifacts", arts, "artifacts");
    assert "artifacts" in KeySet(run');
  }

  /** Normalising twice is normalising once. */
  lemma NormalizeIdempotent(context: Dict<Val>)
    requires NormalizedContext(context).Some?
    ensures NormalizedContext(NormalizedContext(context).value) == NormalizedContext(context)
  {
    var step := Decide(context);
    if step.Normalize? {
      var arts' := NormalizeArtifacts(step.arts).value;
      var run' := Put(step.run, "artifacts", arts');
      var c := Put(context, "run", DictVal(run'));
      assert NormalizedContext(context) == Some(c);
      DecideNormalized(context, step.run, arts');
      NormalizeArtifactsIdempotent(step.arts);
      PutPutSame(step.run, "artifacts", arts');
      PutPutSame(context, "run", DictVal(run'));
      assert NormalizedContext(c) == Some(Put(c, "run", DictVal(Put(run', "artifacts", arts'))));
    }
  }

  /** Writing the value a key already holds changes nothing. */
  lemma {:induction false} PutPutSame<V>(d: Dict<V>, k: string, v: V)
    ensures Put(Put(d, k, v), k, v) == Put(d, k, v)
  {
    if |d| > 0 && d[0].0 != k {
      PutPutSame(d[1..], k, v);
    }
  }

  /**
   * `normalize_context` as the code runs it: find the artifacts, then
   * rewrite them one by one, stopping where Python would raise.
   */
  method NormalizeContext(context: Dict<Val>) returns (r: Option<Dict<Val>>)
    ensures r == NormalizedContext(context)
  {
    var step := Decide(context);
    if step.Untouched? {
      return Some(context);
    }
    if step.Raises? {
      return None;
    }
    var arts := step.arts;
    if !arts.ListVal? {
      match NormalizeArtifacts(arts)
      case None => return None;
      case Some(a) => return Some(Put(context, "run", DictVal(Put(step.run, "artifacts", a))));
    }
    var done := NormalizeList(arts.elems);
    if done.None? {
      return None;
    }
    r := Some(Put(context, "run", DictVal(Put(step.run, "artifacts", ListVal(done.value)))));
  }

  /** The `for art in run["artifacts"]` loop over a list, rewriting each artifact's path. */
  method NormalizeList(es: seq<Val>) returns (r: Option<seq<Val>>)
    ensures r == NormalizeAll(es)
  {
    var done: seq<Val> := [];
    var i := 0;
    while i < |es|
      invariant 0 <= i <= |es|
      invariant NormalizeAll(es[..i]) == Some(done)
    {
      assert es[..i + 1][..i] == es[..i];
      var art := es[i];
      if !art.DictVal? {
        assert !NormalizeAll(es).Some?;
        return None;
      }
      var items := art.items;
      var p := Get(items, "path");
      if p.Some? && p.value.PathVal? {
        items := Put(items, "path", Str(p.value.posix));
      }
      done := done + [DictVal(items)];
      i := i + 1;
    }
    assert es[..|es|] == es;
    r := Some(done);
  }
}

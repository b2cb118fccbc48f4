/** How the detection loops of faster_.py aggregate: the first exception raised in
    group-then-metric order aborts the call, per-metric lists are appended to a
    `defaultdict(list)` one (group, metric) step at a time, and each metric's lists
    are concatenated at the end. */
module Aggregation {
  import opened Common

  /** np.concatenate of a list of lists, in order. */
  function Flatten<T>(xss: seq<seq<T>>): seq<T>
  {
    if xss == [] then [] else Flatten(xss[..|xss| - 1]) + xss[|xss| - 1]
  }

  lemma {:induction false} FlattenMember<T>(xss: seq<seq<T>>, x: T)
    ensures x in Flatten(xss) <==> exists i :: 0 <= i < |xss| && x in xss[i]
  {
    if xss != [] {
      var n := |xss| - 1;
      FlattenMember(xss[..n], x);
      if exists i :: 0 <= i < |xss| && x in xss[i] {
        var i :| 0 <= i < |xss| && x in xss[i];
        if i < n {
          assert x in xss[..n][i];
        }
      }
      if exists i :: 0 <= i < n && x in xss[..n][i] {
        var i :| 0 <= i < n && x in xss[..n][i];
        assert x in xss[i];
      }
    }
  }

  /** Lists of one length n concatenate to a list of length |xss| * n. */
  lemma {:induction false} FlattenUniformLength<T>(xss: seq<seq<T>>, n: nat)
    requires forall i :: 0 <= i < |xss| ==> |xss[i]| == n
    ensures |Flatten(xss)| == |xss| * n
  {
    if xss != [] {
      var k := |xss| - 1;
      FlattenUniformLength(xss[..k], n);
      MulSucc(k, n);
    }
  }

  /** Lists of one length n concatenate to a list whose position e * n + s holds xss[e][s]. */
  lemma {:induction false} FlattenUniformAt<T>(xss: seq<seq<T>>, n: nat, e: nat, s: nat)
    requires forall i :: 0 <= i < |xss| ==> |xss[i]| == n
    requires e < |xss| && s < n
    ensures e * n + s < |Flatten(xss)| && Flatten(xss)[e * n + s] == xss[e][s]
  {
    var k := |xss| - 1;
    FlattenUniformLength(xss, n);
    FlattenUniformLength(xss[..k], n);
    if e < k {
      MulMonotone(e + 1, k, n);
      MulSucc(e, n);
      FlattenUniformAt(xss[..k], n, e, s);
    }
  }

  lemma MulSucc(a: nat, n: nat)
    ensures (a + 1) * n == a * n + n
  {
  }

  lemma MulMonotone(a: nat, b: nat, n: nat)
    requires a <= b
    ensures a * n <= b * n
  {
  }

  /** Evaluates a sequence of steps in order: all values when every step succeeds,
      otherwise the error of the first step that fails. */
  function Collect<T>(rs: seq<Result<T>>): (r: Result<seq<T>>)
    ensures r.Ok? <==> forall i :: 0 <= i < |rs| ==> rs[i].Ok?
    ensures r.Ok? ==> |r.value| == |rs| && forall i :: 0 <= i < |rs| ==> rs[i] == Ok(r.value[i])
    ensures r.Err? ==> exists i :: 0 <= i < |rs| && rs[i] == Err(r.error) && forall j :: 0 <= j < i ==> rs[j].Ok?
  {
    if rs == [] then Ok([])
    else
      match rs[0]
      case Err(e) => Err(e)
      case Ok(v) =>
        match Collect(rs[1..])
        case Err(e) => Err(e)
        case Ok(vs) => Ok([v] + vs)
  }

  /** The error Collect reports is the one of the first failing step. */
  /** Steps that all succeed collect to their values. */
  lemma CollectAllOk<T>(rs: seq<Result<T>>, vs: seq<T>)
    requires |vs| == |rs|
    requires forall i :: 0 <= i < |rs| ==> rs[i] == Ok(vs[i])
    ensures Collect(rs) == Ok(vs)
  {
    assert Collect(rs).value == vs;
  }

  lemma {:induction false} CollectFirstError<T>(rs: seq<Result<T>>, i: nat)
    requires i < |rs| && rs[i].Err?
    requires forall j :: 0 <= j < i ==> rs[j].Ok?
    ensures Collect(rs) == Err(rs[i].error)
  {
    var r := Collect(rs);
    var i' :| 0 <= i' < |rs| && rs[i'] == Err(r.error) && forall j :: 0 <= j < i' ==> rs[j].Ok?;
    assert i' == i;
  }

  /** A table of steps, one row per channel group and one column per metric, evaluated
      group by group and, inside a group, metric by metric. */
  function CollectTable<T>(t: seq<seq<Result<T>>>): (r: Result<seq<seq<T>>>)
    ensures r.Ok? <==> forall g, j :: 0 <= g < |t| && 0 <= j < |t[g]| ==> t[g][j].Ok?
    ensures r.Ok? ==> |r.value| == |t| && forall g :: 0 <= g < |t| ==> |r.value[g]| == |t[g]|
    ensures r.Ok? ==> forall g, j :: 0 <= g < |t| && 0 <= j < |t[g]| ==> t[g][j] == Ok(r.value[g][j])
  {
    var rows := seq(|t|, g requires 0 <= g < |t| => Collect(t[g]));
    var r := Collect(rows);
    assert forall g :: 0 <= g < |t| ==> (rows[g].Ok? <==> forall j :: 0 <= j < |t[g]| ==> t[g][j].Ok?);
    assert r.Ok? <==> forall g :: 0 <= g < |t| ==> rows[g].Ok?;
    r
  }

  lemma {:induction false} CollectTableFirstError<T>(t: seq<seq<Result<T>>>, g: nat, j: nat)
    requires g < |t| && j < |t[g]| && t[g][j].Err?
    requires forall g', j' :: 0 <= g' < g && 0 <= j' < |t[g']| ==> t[g'][j'].Ok?
    requires forall j' :: 0 <= j' < j ==> t[g][j'].Ok?
    ensures CollectTable(t) == Err(t[g][j].error)
  {
    var rows := seq(|t|, g' requires 0 <= g' < |t| => Collect(t[g']));
    CollectFirstError(t[g], j);
    forall g' | 0 <= g' < g ensures rows[g'].Ok? {
      assert forall j' :: 0 <= j' < |t[g']| ==> t[g'][j'].Ok?;
    }
    CollectFirstError(rows, g);
  }

  lemma {:induction false} CollectTableOk<T>(t: seq<seq<Result<T>>>, done: seq<seq<T>>)
    requires |done| == |t|
    requires forall g :: 0 <= g < |t| ==> |done[g]| == |t[g]|
    requires forall g, j :: 0 <= g < |t| && 0 <= j < |t[g]| ==> t[g][j] == Ok(done[g][j])
    ensures CollectTable(t) == Ok(done)
  {
    var rows := seq(|t|, g requires 0 <= g < |t| => Collect(t[g]));
    forall g | 0 <= g < |t| ensures rows[g] == Ok(done[g]) {
      assert Collect(t[g]).Ok?;
      assert Collect(t[g]).value == done[g];
    }
    assert Collect(rows).Ok?;
    assert Collect(rows).value == done;
  }

  /** The table fails with the error of its first failing row. */
  /** Rows 0..g are all Ok once rows 0..g-1 are and row g is. */
  lemma CollectRowsOkSnoc<T>(t: seq<seq<Result<T>>>, g: nat)
    requires g < |t| && Collect(t[g]).Ok?
    requires forall g' :: 0 <= g' < g ==> Collect(t[g']).Ok?
    ensures forall g' :: 0 <= g' < g + 1 ==> Collect(t[g']).Ok?
  {
  }

  lemma CollectTableRowError<T>(t: seq<seq<Result<T>>>, g: nat)
    requires g < |t| && Collect(t[g]).Err?
    requires forall g' :: 0 <= g' < g ==> Collect(t[g']).Ok?
    ensures CollectTable(t) == Err(Collect(t[g]).error)
  {
    var rows := seq(|t|, g' requires 0 <= g' < |t| => Collect(t[g']));
    CollectFirstError(rows, g);
  }

  /** The table succeeds with the values of its rows when every row does. */
  lemma CollectTableRows<T>(t: seq<seq<Result<T>>>, done: seq<seq<T>>)
    requires |done| == |t|
    requires forall g :: 0 <= g < |t| ==> Collect(t[g]) == Ok(done[g])
    ensures CollectTable(t) == Ok(done)
  {
    CollectTableOk(t, done);
  }

  /** The lists recorded so far for metric m (a defaultdict(list) lookup). */
  function Lists<T>(acc: map<Metric, seq<seq<T>>>, m: Metric): seq<seq<T>>
  {
    if m in acc then acc[m] else []
  }

  /** bads[metric].append(xs) */
  function Push<T>(acc: map<Metric, seq<seq<T>>>, m: Metric, xs: seq<T>): map<Metric, seq<seq<T>>>
  {
    acc[m := Lists(acc, m) + [xs]]
  }

  /** The appends of one channel group, metric by metric. */
  function FoldRow<T>(acc: map<Metric, seq<seq<T>>>, metrics: seq<Metric>, row: seq<seq<T>>)
    : map<Metric, seq<seq<T>>>
    requires |row| == |metrics|
  {
    if metrics == [] then acc
    else
      var n := |metrics| - 1;
      Push(FoldRow(acc, metrics[..n], row[..n]), metrics[n], row[n])
  }

  /** The appends of all channel groups, group by group, starting from an empty dictionary. */
  function FoldTable<T>(t: seq<seq<seq<T>>>, metrics: seq<Metric>): map<Metric, seq<seq<T>>>
    requires forall g :: 0 <= g < |t| ==> |t[g]| == |metrics|
  {
    if t == [] then map[]
    else
      var n := |t| - 1;
      FoldRow(FoldTable(t[..n], metrics), metrics, t[n])
  }

  /** dict((k, np.concatenate(v)) for k, v in bads.items()) after all appends. */
  function Concatenated<T>(t: seq<seq<seq<T>>>, metrics: seq<Metric>): map<Metric, seq<T>>
    requires forall g :: 0 <= g < |t| ==> |t[g]| == |metrics|
  {
    var acc := FoldTable(t, metrics);
    map m | m in acc :: Flatten(acc[m])
  }

  /** Appending one more (metric, list) step to a group's appends. */
  lemma FoldRowSnoc<T>(acc: map<Metric, seq<seq<T>>>, metrics: seq<Metric>, row: seq<seq<T>>, xs: seq<T>)
    requires |row| < |metrics|
    ensures FoldRow(acc, metrics[..|row| + 1], row + [xs])
         == Push(FoldRow(acc, metrics[..|row|], row), metrics[|row|], xs)
  {
    var n := |row|;
    assert metrics[..n + 1][..n] == metrics[..n];
    assert (row + [xs])[..n] == row;
  }

  /** Appending one more channel group's appends. */
  lemma FoldTableSnoc<T>(t: seq<seq<seq<T>>>, metrics: seq<Metric>, row: seq<seq<T>>)
    requires forall g :: 0 <= g < |t| ==> |t[g]| == |metrics|
    requires |row| == |metrics|
    ensures FoldTable(t + [row], metrics) == FoldRow(FoldTable(t, metrics), metrics, row)
  {
    assert (t + [row])[..|t|] == t;
  }

  /** The steps of one channel group, one per metric, in loop order. */
  function Steps<T>(metrics: seq<Metric>, step: Metric --> Result<T>): (rs: seq<Result<T>>)
    requires forall j :: 0 <= j < |metrics| ==> step.requires(metrics[j])
    ensures |rs| == |metrics| && forall j :: 0 <= j < |metrics| ==> rs[j] == step(metrics[j])
  {
    seq(|metrics|, j requires 0 <= j < |metrics| => step(metrics[j]))
  }

  /** The metric loop of one channel group: runs each metric's step in order, appending its
      list to that metric's lists (`bads[metric].append(...)`), and stops at the first step
      that fails. */
  method AppendSteps<T>(metrics: seq<Metric>, acc: map<Metric, seq<seq<T>>>, step: Metric --> Result<seq<T>>)
    returns (r: Result<map<Metric, seq<seq<T>>>>)
    requires forall j :: 0 <= j < |metrics| ==> step.requires(metrics[j])
    ensures Collect(Steps(metrics, step)).Err? ==> r == Err(Collect(Steps(metrics, step)).error)
    ensures Collect(Steps(metrics, step)).Ok? ==> r == Ok(FoldRow(acc, metrics, Collect(Steps(metrics, step)).value))
  {
    ghost var steps := Steps(metrics, step);
    var bads := acc;
    ghost var row: seq<seq<T>> := [];
    for mi := 0 to |metrics|
      invariant |row| == mi
      invariant forall j :: 0 <= j < mi ==> steps[j] == Ok(row[j])
      invariant bads == FoldRow(acc, metrics[..mi], row)
    {
      var res := step(metrics[mi]);
      if res.Err? {
        CollectFirstError(steps, mi);
        return Err(res.error);
      }
      FoldRowSnoc(acc, metrics, row, res.value);
      bads := Push(bads, metrics[mi], res.value);
      row := row + [res.value];
    }
    assert metrics[..|metrics|] == metrics;
    CollectAllOk(steps, row);
    r := Ok(bads);
  }

  /** Every (group, metric) step of a detection loop, one row per channel group. */
  function Table<T>(nGroups: nat, metrics: seq<Metric>, step: (nat, Metric) --> Result<T>)
    : (t: seq<seq<Result<T>>>)
    requires forall g, j :: 0 <= g < nGroups && 0 <= j < |metrics| ==> step.requires(g, metrics[j])
    ensures |t| == nGroups
    ensures forall g :: 0 <= g < nGroups ==> |t[g]| == |metrics|
    ensures forall g, j :: 0 <= g < nGroups && 0 <= j < |metrics| ==> t[g][j] == step(g, metrics[j])
  {
    seq(nGroups, g requires 0 <= g < nGroups =>
      seq(|metrics|, j requires 0 <= j < |metrics| => step(g, metrics[j])))
  }

  /** What a detection loop returns: the first failing step's error in loop order, or for
      each metric the concatenation of its per-group lists. */
  function Detect<T>(t: seq<seq<Result<seq<T>>>>, metrics: seq<Metric>): (r: Result<map<Metric, seq<T>>>)
    requires forall g :: 0 <= g < |t| ==> |t[g]| == |metrics|
    ensures r.Err? <==> exists g, j :: 0 <= g < |t| && 0 <= j < |t[g]| && t[g][j].Err?
    ensures r.Ok? ==> r.value == Concatenated(CollectTable(t).value, metrics)
  {
    match CollectTable(t)
    case Err(e) => Err(e)
    case Ok(done) => Ok(Concatenated(done, metrics))
  }

  /** The loop shared by `_find_bad_channels` and `_find_bad_epochs`: for each channel group,
      for each metric, append the step's list to the metric's lists; then join each metric's
      lists. The first failing step aborts the loop. */
  /** Extending the collected rows by the next Ok row keeps them the rows of the table. */
  lemma DoneSnoc<T>(t: seq<seq<Result<T>>>, done: seq<seq<T>>, metrics: seq<Metric>)
    requires |done| < |t| && |t[|done|]| == |metrics| && Collect(t[|done|]).Ok?
    requires forall g :: 0 <= g < |done| ==> Collect(t[g]) == Ok(done[g])
    requires forall g :: 0 <= g < |done| ==> |done[g]| == |metrics|
    ensures var done' := done + [Collect(t[|done|]).value];
      && (forall g :: 0 <= g < |done'| ==> Collect(t[g]) == Ok(done'[g]))
      && (forall g :: 0 <= g < |done'| ==> |done'[g]| == |metrics|)
  {
  }

  /** The steps of group g, as a function of the metric alone. */
  function GroupStep<T>(step: (nat, Metric) --> Result<T>, g: nat): Metric --> Result<T>
  {
    m requires step.requires(g, m) => step(g, m)
  }

  /** Group g's row of the table is the steps of `GroupStep(step, g)`. */
  lemma TableRow<T>(nGroups: nat, metrics: seq<Metric>, step: (nat, Metric) --> Result<T>, g: nat)
    requires forall g', j :: 0 <= g' < nGroups && 0 <= j < |metrics| ==> step.requires(g', metrics[j])
    requires g < nGroups
    ensures Steps(metrics, GroupStep(step, g)) == Table(nGroups, metrics, step)[g]
  {
  }

  /** When every row is Ok, the detection result is the concatenation of the rows' appends. */
  lemma DetectRows<T>(t: seq<seq<Result<seq<T>>>>, metrics: seq<Metric>, done: seq<seq<seq<T>>>)
    requires forall g :: 0 <= g < |t| ==> |t[g]| == |metrics|
    requires |done| == |t|
    requires forall g :: 0 <= g < |t| ==> Collect(t[g]) == Ok(done[g])
    requires forall g :: 0 <= g < |done| ==> |done[g]| == |metrics|
    ensures Detect(t, metrics) == Ok(Concatenated(done, metrics))
  {
    CollectTableRows(t, done);
  }

  method DetectLoop<T>(nGroups: nat, metrics: seq<Metric>, step: (nat, Metric) --> Result<seq<T>>)
    returns (r: Result<map<Metric, seq<T>>>)
    requires forall g, j :: 0 <= g < nGroups && 0 <= j < |metrics| ==> step.requires(g, metrics[j])
    ensures r == Detect(Table(nGroups, metrics, step), metrics)
  {
    ghost var t := Table(nGroups, metrics, step);
    var bads: map<Metric, seq<seq<T>>> := map[];
    ghost var done: seq<seq<seq<T>>> := [];
    for gi := 0 to nGroups
      invariant |done| == gi
      invariant forall g :: 0 <= g < gi ==> Collect(t[g]) == Ok(done[g])
      invariant forall g :: 0 <= g < gi ==> |done[g]| == |metrics|
      invariant bads == FoldTable(done, metrics)
    {
      var res := AppendSteps(metrics, bads, GroupStep(step, gi));
      TableRow(nGroups, metrics, step, gi);
      if res.Err? {
        CollectTableRowError(t, gi);
        return Err(res.error);
      }
      FoldTableSnoc(done, metrics, Collect(t[gi]).value);
      DoneSnoc(t, done, metrics);
      bads := res.value;
      done := done + [Collect(t[gi]).value];
    }
    DetectRows(t, metrics, done);
    r := Ok(map m | m in bads :: Flatten(bads[m]));
  }

  lemma {:induction false} FoldRowKeys<T>(acc: map<Metric, seq<seq<T>>>, metrics: seq<Metric>, row: seq<seq<T>>)
    requires |row| == |metrics|
    ensures FoldRow(acc, metrics, row).Keys == acc.Keys + set j | 0 <= j < |metrics| :: metrics[j]
  {
    if metrics != [] {
      var n := |metrics| - 1;
      FoldRowKeys(acc, metrics[..n], row[..n]);
      assert (set j | 0 <= j < |metrics| :: metrics[j]) == (set j | 0 <= j < n :: metrics[..n][j]) + {metrics[n]};
    }
  }

  /** The result has a key for every metric run, and none at all when there is no channel group. */
  lemma {:induction false} ConcatenatedKeys<T>(t: seq<seq<seq<T>>>, metrics: seq<Metric>)
    requires forall g :: 0 <= g < |t| ==> |t[g]| == |metrics|
    ensures |t| == 0 ==> Concatenated(t, metrics) == map[]
    ensures |t| > 0 ==> Concatenated(t, metrics).Keys == set j | 0 <= j < |metrics| :: metrics[j]
  {
    if |t| > 0 {
      var n := |t| - 1;
      FoldRowKeys(FoldTable(t[..n], metrics), metrics, t[n]);
      if n > 0 {
        ConcatenatedKeys(t[..n], metrics);
        assert FoldTable(t[..n], metrics).Keys == Concatenated(t[..n], metrics).Keys;
      }
    }
  }

  lemma {:induction false} FoldRowAbsent<T>(acc: map<Metric, seq<seq<T>>>, metrics: seq<Metric>, row: seq<seq<T>>, m: Metric)
    requires |row| == |metrics| && m !in metrics
    ensures Lists(FoldRow(acc, metrics, row), m) == Lists(acc, m)
  {
    if metrics != [] {
      var n := |metrics| - 1;
      FoldRowAbsent(acc, metrics[..n], row[..n], m);
    }
  }

  /** With every metric named once, a group's step appends exactly one list to that metric's lists. */
  lemma {:induction false} FoldRowDistinct<T>(acc: map<Metric, seq<seq<T>>>, metrics: seq<Metric>, row: seq<seq<T>>, j: nat)
    requires |row| == |metrics| && Distinct(metrics) && j < |metrics|
    ensures Lists(FoldRow(acc, metrics, row), metrics[j]) == Lists(acc, metrics[j]) + [row[j]]
  {
    var n := |metrics| - 1;
    var m := metrics[j];
    if j == n {
      assert m !in metrics[..n];
      FoldRowAbsent(acc, metrics[..n], row[..n], m);
    } else {
      assert Distinct(metrics[..n]);
      FoldRowDistinct(acc, metrics[..n], row[..n], j);
    }
  }

  /** With every metric named once, a metric's lists are its step results in group order. */
  lemma {:induction false} FoldTableDistinct<T>(t: seq<seq<seq<T>>>, metrics: seq<Metric>, j: nat)
    requires forall g :: 0 <= g < |t| ==> |t[g]| == |metrics|
    requires Distinct(metrics) && j < |metrics|
    ensures Lists(FoldTable(t, metrics), metrics[j]) == seq(|t|, g requires 0 <= g < |t| => t[g][j])
  {
    if t != [] {
      var n := |t| - 1;
      FoldTableDistinct(t[..n], metrics, j);
      FoldRowDistinct(FoldTable(t[..n], metrics), metrics, t[n], j);
    }
  }

  /** Each metric's result is the concatenation of its per-group lists, in group order. */
  lemma ConcatenatedInGroupOrder<T>(t: seq<seq<seq<T>>>, metrics: seq<Metric>, j: nat)
    requires forall g :: 0 <= g < |t| ==> |t[g]| == |metrics|
    requires Distinct(metrics) && j < |metrics| && |t| > 0
    ensures metrics[j] in Concatenated(t, metrics)
    ensures Concatenated(t, metrics)[metrics[j]] == Flatten(seq(|t|, g requires 0 <= g < |t| => t[g][j]))
  {
    ConcatenatedKeys(t, metrics);
    FoldTableDistinct(t, metrics, j);
  }

  /** Appending xs under m' adds exactly xs's items to m's concatenation when m' is m. */
  lemma PushMember<T>(acc: map<Metric, seq<seq<T>>>, m': Metric, xs: seq<T>, m: Metric, x: T)
    ensures x in Flatten(Lists(Push(acc, m', xs), m)) <==>
      x in Flatten(Lists(acc, m)) || (m' == m && x in xs)
  {
    var ls := Lists(acc, m);
    if m' == m {
      assert Lists(Push(acc, m', xs), m) == ls + [xs];
      assert (ls + [xs])[..|ls|] == ls;
    } else {
      assert Lists(Push(acc, m', xs), m) == ls;
    }
  }

  /** Some step among the first n + 1 reported x under m exactly when one of the first n
      did or step n did. */
  lemma ReportedSnoc<T>(metrics: seq<Metric>, row: seq<seq<T>>, m: Metric, x: T)
    requires |row| == |metrics| > 0
    ensures var n := |metrics| - 1;
      (exists j :: 0 <= j < |metrics| && metrics[j] == m && x in row[j]) <==>
      (exists j :: 0 <= j < n && metrics[..n][j] == m && x in row[..n][j]) || (metrics[n] == m && x in row[n])
  {
    var n := |metrics| - 1;
    if exists j :: 0 <= j < |metrics| && metrics[j] == m && x in row[j] {
      var j :| 0 <= j < |metrics| && metrics[j] == m && x in row[j];
      if j < n {
        assert metrics[..n][j] == m && x in row[..n][j];
      }
    }
  }

  lemma {:induction false} FoldRowMember<T>(acc: map<Metric, seq<seq<T>>>, metrics: seq<Metric>, row: seq<seq<T>>,
                                            m: Metric, x: T)
    requires |row| == |metrics|
    ensures x in Flatten(Lists(FoldRow(acc, metrics, row), m)) <==>
      x in Flatten(Lists(acc, m)) || exists j :: 0 <= j < |metrics| && metrics[j] == m && x in row[j]
  {
    if metrics != [] {
      var n := |metrics| - 1;
      FoldRowMember(acc, metrics[..n], row[..n], m, x);
      PushMember(FoldRow(acc, metrics[..n], row[..n]), metrics[n], row[n], m, x);
      ReportedSnoc(metrics, row, m, x);
    }
  }

  lemma {:induction false} FoldTableMember<T>(t: seq<seq<seq<T>>>, metrics: seq<Metric>, m: Metric, x: T)
    requires forall g :: 0 <= g < |t| ==> |t[g]| == |metrics|
    ensures x in Flatten(Lists(FoldTable(t, metrics), m)) <==>
      exists g, j :: 0 <= g < |t| && 0 <= j < |metrics| && metrics[j] == m && x in t[g][j]
  {
    if t != [] {
      var n := |t| - 1;
      var prev := FoldTable(t[..n], metrics);
      assert FoldTable(t, metrics) == FoldRow(prev, metrics, t[n]);
      FoldTableMember(t[..n], metrics, m, x);
      FoldRowMember(prev, metrics, t[n], m, x);
      TableReportedSnoc(t, metrics, m, x);
    }
  }

  /** Some step of the first n + 1 groups reported x under m exactly when one of the first n
      groups' steps did or one of group n's did. */
  lemma TableReportedSnoc<T>(t: seq<seq<seq<T>>>, metrics: seq<Metric>, m: Metric, x: T)
    requires |t| > 0 && forall g :: 0 <= g < |t| ==> |t[g]| == |metrics|
    ensures var n := |t| - 1;
      (exists g, j :: 0 <= g < |t| && 0 <= j < |metrics| && metrics[j] == m && x in t[g][j]) <==>
      (exists g, j :: 0 <= g < n && 0 <= j < |metrics| && metrics[j] == m && x in t[..n][g][j]) ||
      (exists j :: 0 <= j < |metrics| && metrics[j] == m && x in t[n][j])
  {
    var n := |t| - 1;
    if exists g, j :: 0 <= g < |t| && 0 <= j < |metrics| && metrics[j] == m && x in t[g][j] {
      var g, j :| 0 <= g < |t| && 0 <= j < |metrics| && metrics[j] == m && x in t[g][j];
      if g < n {
        assert x in t[..n][g][j];
      }
    }
  }

  /** An item is reported under metric m exactly when some (group, m) step reported it. */
  lemma ConcatenatedMember<T>(t: seq<seq<seq<T>>>, metrics: seq<Metric>, m: Metric, x: T)
    requires forall g :: 0 <= g < |t| ==> |t[g]| == |metrics|
    ensures (m in Concatenated(t, metrics) && x in Concatenated(t, metrics)[m]) <==>
      exists g, j :: 0 <= g < |t| && 0 <= j < |metrics| && metrics[j] == m && x in t[g][j]
  {
    FoldTableMember(t, metrics, m, x);
  }

  /** A detection loop's result lists x under m exactly when some (group, metric) step for m
      reported x. */
  lemma DetectMember<T>(t: seq<seq<Result<seq<T>>>>, metrics: seq<Metric>, m: Metric, x: T)
    requires forall g :: 0 <= g < |t| ==> |t[g]| == |metrics|
    requires Detect(t, metrics).Ok?
    ensures (m in Detect(t, metrics).value && x in Detect(t, metrics).value[m]) <==>
      exists g, j :: 0 <= g < |t| && 0 <= j < |metrics| && metrics[j] == m && x in t[g][j].value
  {
    var done := CollectTable(t).value;
    ConcatenatedMember(done, metrics, m, x);
    if exists g, j :: 0 <= g < |t| && 0 <= j < |metrics| && metrics[j] == m && x in t[g][j].value {
      var g, j :| 0 <= g < |t| && 0 <= j < |metrics| && metrics[j] == m && x in t[g][j].value;
      assert x in done[g][j];
    }
    if exists g, j :: 0 <= g < |done| && 0 <= j < |metrics| && metrics[j] == m && x in done[g][j] {
      var g, j :| 0 <= g < |done| && 0 <= j < |metrics| && metrics[j] == m && x in done[g][j];
      assert t[g][j] == Ok(done[g][j]);
    }
  }

  /** A successful detection loop ran every step successfully. */
  lemma DetectStepsOk<T>(t: seq<seq<Result<seq<T>>>>, metrics: seq<Metric>)
    requires forall g :: 0 <= g < |t| ==> |t[g]| == |metrics|
    requires Detect(t, metrics).Ok?
    ensures forall g, j :: 0 <= g < |t| && 0 <= j < |t[g]| ==> t[g][j].Ok?
  {
  }

  /** When every Ok step reports indices below n, so does the detection loop's result. */
  lemma DetectBelow(t: seq<seq<Result<seq<nat>>>>, metrics: seq<Metric>, n: nat, m: Metric, x: nat)
    requires forall g :: 0 <= g < |t| ==> |t[g]| == |metrics|
    requires Detect(t, metrics).Ok?
    requires forall g, j :: 0 <= g < |t| && 0 <= j < |t[g]| && t[g][j].Ok? ==> IndicesBelow(t[g][j].value, n)
    ensures m in Detect(t, metrics).value && x in Detect(t, metrics).value[m] ==> x < n
  {
    DetectMember(t, metrics, m, x);
  }

  /** With each metric named once and at least one group, the result has a key per metric run,
      and a metric's list is its steps' lists joined in group order. */
  lemma DetectInGroupOrder<T>(t: seq<seq<Result<seq<T>>>>, metrics: seq<Metric>, j: nat)
    requires forall g :: 0 <= g < |t| ==> |t[g]| == |metrics|
    requires Detect(t, metrics).Ok?
    requires Distinct(metrics) && j < |metrics| && |t| > 0
    ensures Detect(t, metrics).value.Keys == set j' | 0 <= j' < |metrics| :: metrics[j']
    ensures Detect(t, metrics).value[metrics[j]] == Flatten(seq(|t|, g requires 0 <= g < |t| => t[g][j].value))
  {
    var done := CollectTable(t).value;
    ConcatenatedKeys(done, metrics);
    ConcatenatedInGroupOrder(done, metrics, j);
    assert seq(|done|, g requires 0 <= g < |done| => done[g][j])
        == seq(|t|, g requires 0 <= g < |t| => t[g][j].value);
  }

  /** When every Ok step reports only items of `allowed`, so does the detection loop's result. */
  lemma DetectReportsOnly<T>(t: seq<seq<Result<seq<T>>>>, metrics: seq<Metric>, allowed: set<T>, m: Metric, x: T)
    requires forall g :: 0 <= g < |t| ==> |t[g]| == |metrics|
    requires Detect(t, metrics).Ok?
    requires forall g, j, k :: 0 <= g < |t| && 0 <= j < |t[g]| && t[g][j].Ok? && 0 <= k < |t[g][j].value| ==>
      t[g][j].value[k] in allowed
    ensures m in Detect(t, metrics).value && x in Detect(t, metrics).value[m] ==> x in allowed
  {
    DetectMember(t, metrics, m, x);
    if m in Detect(t, metrics).value && x in Detect(t, metrics).value[m] {
      var g, j :| 0 <= g < |t| && 0 <= j < |metrics| && metrics[j] == m && x in t[g][j].value;
      var k :| 0 <= k < |t[g][j].value| && t[g][j].value[k] == x;
    }
  }
}

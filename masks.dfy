/** The mask bookkeeping of `_find_bad_channels_in_epochs`: one boolean
    (epochs x picked channels) mask per catalog metric, stacked in one array, set
    cell by cell from each (group, metric) step's per-epoch outliers. */
module Masks {
  import opened Common
  import opened Aggregation

  /** Epoch e's outliers mark column c: c is chs[k] for one of the outlier positions k. */
  predicate Hits(outl: seq<seq<nat>>, chs: seq<nat>, e: int, c: int)
  {
    0 <= e < |outl| &&
    exists k :: 0 <= k < |outl[e]| && outl[e][k] < |chs| && chs[outl[e][k]] == c
  }

  /** Among the first n steps of one group, a step for metric m marks cell (e, c). */
  ghost predicate GroupMarks(steps: seq<Result<seq<seq<nat>>>>, metrics: seq<Metric>, n: nat,
                             chs: seq<nat>, m: Metric, e: int, c: int)
    requires n <= |steps| && n <= |metrics|
  {
    n > 0 &&
    (GroupMarks(steps, metrics, n - 1, chs, m, e, c) ||
     (metrics[n - 1] == m && steps[n - 1].Ok? && Hits(steps[n - 1].value, chs, e, c)))
  }

  /** A step of one of the first gi groups, for metric m, marks cell (e, c). */
  ghost predicate MarkedBefore(t: seq<seq<Result<seq<seq<nat>>>>>, groups: seq<seq<nat>>, metrics: seq<Metric>,
                               gi: nat, m: Metric, e: int, c: int)
    requires gi <= |t| && gi <= |groups|
    requires forall g :: 0 <= g < gi ==> |t[g]| == |metrics|
  {
    gi > 0 &&
    (MarkedBefore(t, groups, metrics, gi - 1, m, e, c) ||
     GroupMarks(t[gi - 1], metrics, |metrics|, groups[gi - 1], m, e, c))
  }

  /** Unfolded: a group's steps mark a cell when one of them, for that metric, has the cell's
      column among the epoch's outliers. */
  lemma {:induction false} GroupMarksExists(steps: seq<Result<seq<seq<nat>>>>, metrics: seq<Metric>, n: nat,
                                            chs: seq<nat>, m: Metric, e: int, c: int)
    requires n <= |steps| && n <= |metrics|
    ensures GroupMarks(steps, metrics, n, chs, m, e, c) <==>
      exists j :: 0 <= j < n && metrics[j] == m && steps[j].Ok? && Hits(steps[j].value, chs, e, c)
  {
    if n > 0 {
      GroupMarksExists(steps, metrics, n - 1, chs, m, e, c);
    }
  }

  /** Unfolded: a cell is marked when some (group, metric) step for that metric, in one of the
      first gi groups, has the cell's column among the epoch's outliers. */
  lemma {:induction false} MarkedBeforeExists(t: seq<seq<Result<seq<seq<nat>>>>>, groups: seq<seq<nat>>,
                                              metrics: seq<Metric>, gi: nat, m: Metric, e: int, c: int)
    requires gi <= |t| && gi <= |groups|
    requires forall g :: 0 <= g < gi ==> |t[g]| == |metrics|
    ensures MarkedBefore(t, groups, metrics, gi, m, e, c) <==>
      exists g, j :: 0 <= g < gi && 0 <= j < |metrics| && metrics[j] == m && t[g][j].Ok?
        && Hits(t[g][j].value, groups[g], e, c)
  {
    if gi > 0 {
      MarkedBeforeExists(t, groups, metrics, gi - 1, m, e, c);
      GroupMarksExists(t[gi - 1], metrics, |metrics|, groups[gi - 1], m, e, c);
      if exists g, j :: 0 <= g < gi && 0 <= j < |metrics| && metrics[j] == m && t[g][j].Ok?
          && Hits(t[g][j].value, groups[g], e, c) {
        var g, j :| 0 <= g < gi && 0 <= j < |metrics| && metrics[j] == m && t[g][j].Ok?
          && Hits(t[g][j].value, groups[g], e, c);
        if g < gi - 1 {
          assert 0 <= g < gi - 1 && 0 <= j < |metrics| && metrics[j] == m && t[g][j].Ok?
            && Hits(t[g][j].value, groups[g], e, c);
        }
      }
    }
  }

  /** The masks a channel-in-epoch loop returns: the first failing step's error, or for every
      catalog metric an (nEpochs x nPicks) mask whose cell (e, c) is set exactly when some
      group's step for that metric found c an outlier of epoch e. */
  ghost function MaskTable(t: seq<seq<Result<seq<seq<nat>>>>>, groups: seq<seq<nat>>, metrics: seq<Metric>,
                           catalog: seq<Metric>, nEpochs: nat, nPicks: nat): (r: Result<map<Metric, seq<seq<bool>>>>)
    requires |t| == |groups| && forall g :: 0 <= g < |t| ==> |t[g]| == |metrics|
    ensures r.Err? <==> exists g, j :: 0 <= g < |t| && 0 <= j < |t[g]| && t[g][j].Err?
    ensures r.Ok? ==> forall m :: m in r.value <==> m in catalog
    ensures r.Ok? ==> forall m :: m in r.value ==>
      |r.value[m]| == nEpochs && forall e :: 0 <= e < nEpochs ==> |r.value[m][e]| == nPicks
  {
    match CollectTable(t)
    case Err(err) => Err(err)
    case Ok(_) =>
      Ok(map m | m in catalog ::
        seq(nEpochs, e =>
          seq(nPicks, c => MarkedBefore(t, groups, metrics, |t|, m, e, c))))
  }

  /** A map with a mask for every catalog metric, of the right shape and with exactly the
      marked cells set, is the loop's result when no step fails. */
  lemma MaskTableOk(t: seq<seq<Result<seq<seq<nat>>>>>, groups: seq<seq<nat>>, metrics: seq<Metric>,
                    catalog: seq<Metric>, nEpochs: nat, nPicks: nat, res: map<Metric, seq<seq<bool>>>)
    requires |t| == |groups| && forall g :: 0 <= g < |t| ==> |t[g]| == |metrics|
    requires forall g, j :: 0 <= g < |t| && 0 <= j < |t[g]| ==> t[g][j].Ok?
    requires forall m :: m in res <==> m in catalog
    requires forall m :: m in res ==> |res[m]| == nEpochs
    requires forall m, e :: m in res && 0 <= e < nEpochs ==> |res[m][e]| == nPicks
    requires forall m, e, c :: m in catalog && 0 <= e < nEpochs && 0 <= c < nPicks ==>
      res[m][e][c] == MarkedBefore(t, groups, metrics, |t|, m, e, c)
    ensures MaskTable(t, groups, metrics, catalog, nEpochs, nPicks) == Ok(res)
  {
    assert CollectTable(t).Ok?;
    var spec := MaskTable(t, groups, metrics, catalog, nEpochs, nPicks).value;
    forall m | m in catalog ensures res[m] == spec[m] {
      forall e | 0 <= e < nEpochs ensures res[m][e] == spec[m][e] {
        assert forall c :: 0 <= c < nPicks ==> spec[m][e][c] == MarkedBefore(t, groups, metrics, |t|, m, e, c);
      }
    }
    assert res.Keys == spec.Keys;
    assert res == spec;
  }

  /** The position of m in a catalog. */
  /** A metric's mask has a cell set exactly when one of its (group, metric) steps hit it;
      a catalog metric that is not run keeps an all-False mask. */
  lemma MaskTableMarked(t: seq<seq<Result<seq<seq<nat>>>>>, groups: seq<seq<nat>>, metrics: seq<Metric>,
                        catalog: seq<Metric>, nEpochs: nat, nPicks: nat, m: Metric, e: nat, c: nat)
    requires |t| == |groups| && forall g :: 0 <= g < |t| ==> |t[g]| == |metrics|
    requires MaskTable(t, groups, metrics, catalog, nEpochs, nPicks).Ok?
    requires m in catalog && e < nEpochs && c < nPicks
    ensures MaskTable(t, groups, metrics, catalog, nEpochs, nPicks).value[m][e][c] <==>
      exists g, j :: 0 <= g < |groups| && 0 <= j < |metrics| && metrics[j] == m
        && Hits(t[g][j].value, groups[g], e, c)
    ensures m !in metrics ==> !MaskTable(t, groups, metrics, catalog, nEpochs, nPicks).value[m][e][c]
  {
    MarkedBeforeExists(t, groups, metrics, |t|, m, e, c);
  }

  function IndexOf(catalog: seq<Metric>, m: Metric): (a: nat)
    requires m in catalog
    ensures a < |catalog| && catalog[a] == m
  {
    if catalog[0] == m then 0 else 1 + IndexOf(catalog[1..], m)
  }

  /** A step result fits the masks: it belongs to a catalog metric, has at most one row per
      epoch, and its outlier positions lie within the group. */
  predicate StepFits(r: Result<seq<seq<nat>>>, catalog: seq<Metric>, m: Metric, nEpochs: nat, nChs: nat)
  {
    r.Ok? ==>
      && m in catalog
      && |r.value| <= nEpochs
      && forall e, k :: 0 <= e < |r.value| && 0 <= k < |r.value[e]| ==> r.value[e][k] < nChs
  }

  /** One metric's (epochs x picks) mask, read out of the stacked masks. */
  function MaskOf(masks: array3<bool>, a: nat): (r: seq<seq<bool>>)
    requires a < masks.Length0
    reads masks
    ensures |r| == masks.Length1
    ensures forall e :: 0 <= e < |r| ==> |r[e]| == masks.Length2
    ensures forall e, c :: 0 <= e < |r| && 0 <= c < masks.Length2 ==> r[e][c] == masks[a, e, c]
  {
    seq(masks.Length1, e requires 0 <= e < masks.Length1 reads masks =>
      seq(masks.Length2, c requires 0 <= c < masks.Length2 reads masks => masks[a, e, c]))
  }

  /** The stacked masks as a dictionary from each catalog metric to its layer. */
  method ByMetric(masks: array3<bool>, catalog: seq<Metric>) returns (res: map<Metric, seq<seq<bool>>>)
    requires masks.Length0 == |catalog|
    ensures forall m :: m in res <==> m in catalog
    ensures forall m :: m in res ==> |res[m]| == masks.Length1
    ensures forall m, e :: m in res && 0 <= e < masks.Length1 ==> |res[m][e]| == masks.Length2
    ensures forall m, e, c :: m in catalog && 0 <= e < masks.Length1 && 0 <= c < masks.Length2 ==>
      res[m][e][c] == masks[IndexOf(catalog, m), e, c]
  {
    res := map m | m in catalog :: MaskOf(masks, IndexOf(catalog, m));
  }

  /** `bads[metric][i_epochs, chs[outliers]] = True` for every epoch of one step: cells of
      layer a are only ever set, never reset, and no other layer changes. */
  method MarkOutliers(masks: array3<bool>, a: nat, chs: seq<nat>, outl: seq<seq<nat>>)
    requires a < masks.Length0 && |outl| <= masks.Length1
    requires GroupValid(chs, masks.Length2)
    requires forall e, k :: 0 <= e < |outl| && 0 <= k < |outl[e]| ==> outl[e][k] < |chs|
    modifies masks
    ensures forall a', e, c :: 0 <= a' < masks.Length0 && 0 <= e < masks.Length1 && 0 <= c < masks.Length2 ==>
      masks[a', e, c] == (old(masks[a', e, c]) || (a' == a && Hits(outl, chs, e, c)))
  {
    for e := 0 to |outl|
      invariant forall a', e', c :: 0 <= a' < masks.Length0 && 0 <= e' < masks.Length1 && 0 <= c < masks.Length2 ==>
        masks[a', e', c] == (old(masks[a', e', c]) || (a' == a && e' < e && Hits(outl, chs, e', c)))
    {
      var cols := outl[e];
      for i := 0 to |cols|
        invariant forall a', e', c :: 0 <= a' < masks.Length0 && 0 <= e' < masks.Length1 && 0 <= c < masks.Length2 ==>
          masks[a', e', c] == (old(masks[a', e', c]) ||
            (a' == a && e' < e && Hits(outl, chs, e', c)) ||
            (a' == a && e' == e && exists k :: 0 <= k < i && chs[cols[k]] == c))
      {
        masks[a, e, chs[cols[i]]] := true;
      }
    }
  }

  /** The metric loop of one channel group: each metric's step marks its outliers in that
      metric's layer; the first failing step stops the loop with its error. */
  method MarkGroup(masks: array3<bool>, catalog: seq<Metric>, chs: seq<nat>, metrics: seq<Metric>,
                   step: Metric --> Result<seq<seq<nat>>>) returns (err: Option<Error>)
    requires Distinct(catalog) && masks.Length0 == |catalog|
    requires GroupValid(chs, masks.Length2)
    requires forall j :: 0 <= j < |metrics| ==> step.requires(metrics[j])
    requires forall j :: 0 <= j < |metrics| ==> StepFits(step(metrics[j]), catalog, metrics[j], masks.Length1, |chs|)
    modifies masks
    ensures Collect(Steps(metrics, step)).Err? ==> err == Some(Collect(Steps(metrics, step)).error)
    ensures Collect(Steps(metrics, step)).Ok? ==> err == None
    ensures Collect(Steps(metrics, step)).Ok? ==>
      forall a, e, c :: 0 <= a < |catalog| && 0 <= e < masks.Length1 && 0 <= c < masks.Length2 ==>
        masks[a, e, c] == (old(masks[a, e, c]) || GroupMarks(Steps(metrics, step), metrics, |metrics|, chs, catalog[a], e, c))
  {
    ghost var steps := Steps(metrics, step);
    for mi := 0 to |metrics|
      invariant forall j :: 0 <= j < mi ==> steps[j].Ok?
      invariant forall a, e, c :: 0 <= a < |catalog| && 0 <= e < masks.Length1 && 0 <= c < masks.Length2 ==>
        masks[a, e, c] == (old(masks[a, e, c]) || GroupMarks(steps, metrics, mi, chs, catalog[a], e, c))
    {
      var res := step(metrics[mi]);
      if res.Err? {
        CollectFirstError(steps, mi);
        return Some(res.error);
      }
      var a := IndexOf(catalog, metrics[mi]);
      MarkOutliers(masks, a, chs, res.value);
      forall a', e, c | 0 <= a' < |catalog| && 0 <= e < masks.Length1 && 0 <= c < masks.Length2
        ensures masks[a', e, c] == (old(masks[a', e, c]) || GroupMarks(steps, metrics, mi + 1, chs, catalog[a'], e, c))
      {
        assert a' == a <==> catalog[a'] == metrics[mi];
      }
    }
    return None;
  }

  /** The loop of `_find_bad_channels_in_epochs`: allocates an all-False mask per catalog
      metric, runs every (group, metric) step in order marking its outliers, and returns the
      masks by metric; the first failing step aborts the loop. */
  method MarkLoop(catalog: seq<Metric>, nEpochs: nat, nPicks: nat, groups: seq<seq<nat>>, metrics: seq<Metric>,
                  step: (nat, Metric) --> Result<seq<seq<nat>>>) returns (r: Result<map<Metric, seq<seq<bool>>>>)
    requires Distinct(catalog) && GroupsValid(groups, nPicks)
    requires forall g, j :: 0 <= g < |groups| && 0 <= j < |metrics| ==> step.requires(g, metrics[j])
    requires forall g, j :: 0 <= g < |groups| && 0 <= j < |metrics| ==>
      StepFits(step(g, metrics[j]), catalog, metrics[j], nEpochs, |groups[g]|)
    ensures r == MaskTable(Table(|groups|, metrics, step), groups, metrics, catalog, nEpochs, nPicks)
  {
    ghost var t: seq<seq<Result<seq<seq<nat>>>>> := Table(|groups|, metrics, step);
    var masks := new bool[|catalog|, nEpochs, nPicks]((a, e, c) => false);
    for gi := 0 to |groups|
      invariant forall g :: 0 <= g < gi ==> Collect(t[g]).Ok?
      invariant forall a, e, c :: 0 <= a < |catalog| && 0 <= e < nEpochs && 0 <= c < nPicks ==>
        masks[a, e, c] == MarkedBefore(t, groups, metrics, gi, catalog[a], e, c)
    {
      TableRow(|groups|, metrics, step, gi);
      var err := MarkGroup(masks, catalog, groups[gi], metrics, GroupStep(step, gi));
      if err.Some? {
        CollectTableRowError(t, gi);
        return Err(err.value);
      }
      assert Collect(t[gi]).Ok?;
      CollectRowsOkSnoc(t, gi);
    }
    forall g, j | 0 <= g < |t| && 0 <= j < |t[g]|
      ensures t[g][j].Ok?
    {
      assert Collect(t[g]).Ok?;
    }
    var res := ByMetric(masks, catalog);
    MaskTableOk(t, groups, metrics, catalog, nEpochs, nPicks, res);
    r := Ok(res);
  }
}

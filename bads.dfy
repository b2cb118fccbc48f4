/** The public entry points of bads.py: dispatch on the detection method, then either
    hand back the per-metric result or summarise it (a set of channel names or epoch
    indices, or per-epoch lists of channel names). */
module Bads {
  import opened Common
  import opened Aggregation
  import opened Masks
  import opened Faster

  /** A detection result: by metric (`return_by_metric=True`) or summarised. */
  datatype Report<B, C> = ByMetric(byMetric: map<Metric, B>) | Combined(combined: C)

  /** The detection methods the entry points dispatch on. */
  const FasterMethod: string := "faster"

  /** `_combine_indices`: every item reported under any metric, each once (a set; the
      order of the list built from it is not modelled). */
  function CombineIndices<T(!new)>(bads: map<Metric, seq<T>>): (r: set<T>)
    ensures forall x :: x in r <==> exists m :: m in bads && x in bads[m]
  {
    set m, i | m in bads && 0 <= i < |bads[m]| :: bads[m][i]
  }

  /** `np.where(row)[0]`: the columns of the True cells, in increasing order. */
  function TrueColumns(row: seq<bool>): (cols: seq<nat>)
    ensures forall i :: 0 <= i < |cols| ==> cols[i] < |row| && row[cols[i]]
    ensures forall i, j :: 0 <= i < j < |cols| ==> cols[i] < cols[j]
    ensures forall k: nat :: k < |row| && row[k] ==> k in cols
  {
    if row == [] then []
    else
      var n := |row| - 1;
      TrueColumns(row[..n]) + (if row[n] then [n] else [])
  }

  /** The names of a row's True columns, in column order. */
  function RowNames(names: seq<string>, row: seq<bool>): (r: seq<string>)
    requires |row| <= |names|
    ensures |r| == |TrueColumns(row)|
    ensures forall x :: x in r <==> exists k :: 0 <= k < |row| && row[k] && names[k] == x
  {
    var cols := TrueColumns(row);
    var r := seq(|cols|, i requires 0 <= i < |cols| => names[cols[i]]);
    assert forall k: nat :: k < |row| && row[k] ==> names[k] in r by {
      forall k: nat | k < |row| && row[k]
        ensures names[k] in r
      {
        var i :| 0 <= i < |cols| && cols[i] == k;
        assert r[i] == names[k];
      }
    }
    r
  }

  /** A row's names come in increasing column order: an earlier name belongs to an earlier
      True column. */
  lemma RowNamesInColumnOrder(names: seq<string>, row: seq<bool>, i: nat, j: nat)
    requires |row| <= |names| && i < j < |RowNames(names, row)|
    ensures exists k, k' ::
              0 <= k < k' < |row| && row[k] && row[k'] &&
              RowNames(names, row)[i] == names[k] && RowNames(names, row)[j] == names[k']
  {
    var cols := TrueColumns(row);
    assert RowNames(names, row)[i] == names[cols[i]] && RowNames(names, row)[j] == names[cols[j]];
  }

  /** `_bad_mask_to_names`: for each epoch, the names of its True columns, in column order. */
  function BadMaskToNames(names: seq<string>, mask: seq<seq<bool>>): (r: seq<seq<string>>)
    requires forall e :: 0 <= e < |mask| ==> |mask[e]| <= |names|
    ensures |r| == |mask|
    ensures forall e :: 0 <= e < |mask| ==> |r[e]| == |TrueColumns(mask[e])|
    ensures forall e, x :: 0 <= e < |mask| ==>
      (x in r[e] <==> exists k :: 0 <= k < |mask[e]| && mask[e][k] && names[k] == x)
  {
    seq(|mask|, e requires 0 <= e < |mask| => RowNames(names, mask[e]))
  }

  /** The number of layers whose cell (e, c) is True. */
  function Votes(layers: seq<seq<seq<bool>>>, e: nat, c: nat): (n: nat)
    ensures n <= |layers|
  {
    if layers == [] then 0
    else
      var i := |layers| - 1;
      var hit := e < |layers[i]| && c < |layers[i][e]| && layers[i][e][c];
      Votes(layers[..i], e, c) + (if hit then 1 else 0)
  }

  /** A cell has a positive count exactly when some layer has it True. */
  lemma {:induction false} VotesPositive(layers: seq<seq<seq<bool>>>, e: nat, c: nat)
    ensures Votes(layers, e, c) > 0 <==>
      exists i :: 0 <= i < |layers| && e < |layers[i]| && c < |layers[i][e]| && layers[i][e][c]
  {
    if layers != [] {
      var i := |layers| - 1;
      VotesPositive(layers[..i], e, c);
      if exists i' :: 0 <= i' < |layers| && e < |layers[i']| && c < |layers[i'][e]| && layers[i'][e][c] {
        var i' :| 0 <= i' < |layers| && e < |layers[i']| && c < |layers[i'][e]| && layers[i'][e][c];
        if i' < i {
          assert layers[..i][i'] == layers[i'];
        }
      }
    }
  }

  /** `np.sum(list(bads.values()), axis=0).astype(bool)`: a cell is set when its count over
      the layers is positive. */
  function MaskSum(layers: seq<seq<seq<bool>>>, nEpochs: nat, nPicks: nat): (r: seq<seq<bool>>)
    ensures |r| == nEpochs && forall e :: 0 <= e < nEpochs ==> |r[e]| == nPicks
  {
    seq(nEpochs, e requires 0 <= e < nEpochs =>
      seq(nPicks, c requires 0 <= c < nPicks => Votes(layers, e, c) > 0))
  }

  /** The summed mask is the cell-wise OR of the layers. */
  lemma MaskSumIsOr(layers: seq<seq<seq<bool>>>, nEpochs: nat, nPicks: nat, e: nat, c: nat)
    requires e < nEpochs && c < nPicks
    ensures MaskSum(layers, nEpochs, nPicks)[e][c] <==>
      exists i :: 0 <= i < |layers| && e < |layers[i]| && c < |layers[i][e]| && layers[i][e][c]
  {
    VotesPositive(layers, e, c);
  }

  /** The masks' values, in the catalog's (dictionary) order. */
  function CatalogLayers(masks: map<Metric, seq<seq<bool>>>): (layers: seq<seq<seq<bool>>>)
    requires forall a :: 0 <= a < |CellCatalog| ==> CellCatalog[a] in masks
    ensures |layers| == |CellCatalog|
    ensures forall a :: 0 <= a < |CellCatalog| ==> layers[a] == masks[CellCatalog[a]]
  {
    seq(|CellCatalog|, a requires 0 <= a < |CellCatalog| => masks[CellCatalog[a]])
  }

  /** info['ch_names'] of `pick_info(epochs.info, picks)`. */
  function PickedNames(rec: Recording, picks: seq<nat>): (names: seq<string>)
    requires rec.Valid() && PicksValid(rec, picks)
    ensures |names| == |picks|
    ensures forall k :: 0 <= k < |picks| ==> names[k] == rec.chNames[picks[k]]
  {
    seq(|picks|, k requires 0 <= k < |picks| => rec.chNames[picks[k]])
  }

  /** `find_bad_channels`: only "faster" is implemented; the per-metric names are returned
      as they are, or combined into one set of names. */
  method FindBadChannels(rec: Recording, nm: Numerics, picks: seq<nat>, groups: seq<seq<nat>>,
                         algorithm: string, params: FasterParams, returnByMetric: bool)
    returns (r: Result<Report<seq<string>, set<string>>>)
    requires Inputs(rec, nm, picks, groups)
    ensures algorithm != FasterMethod ==> r == Err(NotImplemented)
    ensures algorithm == FasterMethod ==> var b := BadChannels(rec, nm, params, picks, groups);
      (r.Err? <==> b.Err?) && (r.Err? ==> r.error == b.error)
    ensures algorithm == FasterMethod && returnByMetric && r.Ok? ==>
      r.value == ByMetric(BadChannels(rec, nm, params, picks, groups).value)
    ensures algorithm == FasterMethod && !returnByMetric && r.Ok? ==>
      var b := BadChannels(rec, nm, params, picks, groups).value;
      r.value.Combined? && forall x :: x in r.value.combined <==> exists m :: m in b && x in b[m]
  {
    if algorithm != FasterMethod {
      return Err(NotImplemented);
    }
    var bads :- Faster.FindBadChannels(rec, nm, params, picks, groups);
    if returnByMetric {
      r := Ok(ByMetric(bads));
    } else {
      r := Ok(Combined(CombineIndices(bads)));
    }
  }

  /** `find_bad_epochs`: only "faster" is implemented; the per-metric epoch indices are
      returned as they are, or combined into one set of indices. */
  method FindBadEpochs(rec: Recording, nm: Numerics, picks: seq<nat>, groups: seq<seq<nat>>,
                       algorithm: string, params: FasterParams, returnByMetric: bool)
    returns (r: Result<Report<seq<nat>, set<nat>>>)
    requires Inputs(rec, nm, picks, groups)
    ensures algorithm != FasterMethod ==> r == Err(NotImplemented)
    ensures algorithm == FasterMethod ==> var b := BadEpochs(rec, nm, params, picks, groups);
      (r.Err? <==> b.Err?) && (r.Err? ==> r.error == b.error)
    ensures algorithm == FasterMethod && returnByMetric && r.Ok? ==>
      r.value == ByMetric(BadEpochs(rec, nm, params, picks, groups).value)
    ensures algorithm == FasterMethod && !returnByMetric && r.Ok? ==>
      var b := BadEpochs(rec, nm, params, picks, groups).value;
      r.value.Combined? && forall x :: x in r.value.combined <==> exists m :: m in b && x in b[m]
  {
    if algorithm != FasterMethod {
      return Err(NotImplemented);
    }
    var bads :- Faster.FindBadEpochs(rec, nm, params, picks, groups);
    if returnByMetric {
      r := Ok(ByMetric(bads));
    } else {
      r := Ok(Combined(CombineIndices(bads)));
    }
  }

  /** `find_bad_channels_in_epochs`: only "faster" is implemented; each metric's mask becomes
      per-epoch channel names, or the masks are summed into one and that becomes names. */
  method FindBadChannelsInEpochs(rec: Recording, nm: Numerics, picks: seq<nat>, groups: seq<seq<nat>>,
                                 algorithm: string, params: FasterParams, returnByMetric: bool)
    returns (r: Result<Report<seq<seq<string>>, seq<seq<string>>>>)
    requires Inputs(rec, nm, picks, groups)
    ensures algorithm != FasterMethod ==> r == Err(NotImplemented)
    ensures algorithm == FasterMethod ==> var b := BadCellMasks(rec, nm, params, picks, groups);
      (r.Err? <==> b.Err?) && (r.Err? ==> r.error == b.error)
    ensures algorithm == FasterMethod && returnByMetric && r.Ok? ==>
      var masks := BadCellMasks(rec, nm, params, picks, groups).value;
      r.value.ByMetric? && r.value.byMetric.Keys == masks.Keys &&
      forall m :: m in masks ==> r.value.byMetric[m] == BadMaskToNames(PickedNames(rec, picks), masks[m])
    ensures algorithm == FasterMethod && !returnByMetric && r.Ok? ==>
      var masks := BadCellMasks(rec, nm, params, picks, groups).value;
      r.value == Combined(BadMaskToNames(PickedNames(rec, picks),
                                         MaskSum(CatalogLayers(masks), |rec.data|, |picks|)))
  {
    if algorithm != FasterMethod {
      return Err(NotImplemented);
    }
    var masks :- Faster.FindBadChannelsInEpochs(rec, nm, params, picks, groups);
    var names := PickedNames(rec, picks);
    if returnByMetric {
      r := Ok(ByMetric(map m | m in masks :: BadMaskToNames(names, masks[m])));
    } else {
      r := Ok(Combined(BadMaskToNames(names, MaskSum(CatalogLayers(masks), |rec.data|, |picks|))));
    }
  }

  /** An item is in the combined result of a detection loop exactly when some
      (group, metric) step reported it. */
  lemma CombinedSteps<T(!new)>(t: seq<seq<Result<seq<T>>>>, metrics: seq<Metric>, x: T)
    requires forall g :: 0 <= g < |t| ==> |t[g]| == |metrics|
    requires Detect(t, metrics).Ok?
    ensures x in CombineIndices(Detect(t, metrics).value) <==>
      exists g, j :: 0 <= g < |t| && 0 <= j < |metrics| && x in t[g][j].value
  {
    var b := Detect(t, metrics).value;
    if x in CombineIndices(b) {
      var m :| m in b && x in b[m];
      DetectMember(t, metrics, m, x);
    }
    if exists g, j :: 0 <= g < |t| && 0 <= j < |metrics| && x in t[g][j].value {
      var g, j :| 0 <= g < |t| && 0 <= j < |metrics| && x in t[g][j].value;
      DetectMember(t, metrics, metrics[j], x);
    }
  }

  /** Masks keyed by the channel-in-epoch catalog, each `nEpochs` by `nPicks`. */
  predicate CatalogMasks(masks: map<Metric, seq<seq<bool>>>, nEpochs: nat, nPicks: nat)
  {
    && (forall m :: m in masks <==> m in CellCatalog)
    && forall m :: m in masks ==>
         |masks[m]| == nEpochs && forall e :: 0 <= e < nEpochs ==> |masks[m][e]| == nPicks
  }

  /** In the summed mask turned into names, epoch e lists a name exactly when some metric's
      mask marks a column of that name in that epoch. */
  lemma SummedNames(names: seq<string>, masks: map<Metric, seq<seq<bool>>>, nEpochs: nat, e: nat, x: string)
    requires CatalogMasks(masks, nEpochs, |names|) && e < nEpochs
    ensures x in BadMaskToNames(names, MaskSum(CatalogLayers(masks), nEpochs, |names|))[e] <==>
      exists m, c :: m in masks && 0 <= c < |names| && masks[m][e][c] && names[c] == x
  {
    var layers := CatalogLayers(masks);
    var sum := MaskSum(layers, nEpochs, |names|);
    if x in BadMaskToNames(names, sum)[e] {
      var c :| 0 <= c < |sum[e]| && sum[e][c] && names[c] == x;
      MaskSumIsOr(layers, nEpochs, |names|, e, c);
      var a :| 0 <= a < |layers| && e < |layers[a]| && c < |layers[a][e]| && layers[a][e][c];
      assert masks[CellCatalog[a]][e][c];
    }
    if exists m, c :: m in masks && 0 <= c < |names| && masks[m][e][c] && names[c] == x {
      var m, c :| m in masks && 0 <= c < |names| && masks[m][e][c] && names[c] == x;
      assert m in CellCatalog;
      var a := IndexOf(CellCatalog, m);
      assert layers[a] == masks[m];
      MaskSumIsOr(layers, nEpochs, |names|, e, c);
      assert sum[e][c];
    }
  }

  /** When every layer but one is False at a cell, the summed mask there is that layer's cell. */
  lemma SummedSingleLayer(layers: seq<seq<seq<bool>>>, nEpochs: nat, nPicks: nat, a: nat, e: nat, c: nat)
    requires a < |layers| && e < nEpochs && c < nPicks && e < |layers[a]| && c < |layers[a][e]|
    requires forall i :: 0 <= i < |layers| && i != a && e < |layers[i]| && c < |layers[i][e]| ==> !layers[i][e][c]
    ensures MaskSum(layers, nEpochs, nPicks)[e][c] == layers[a][e][c]
  {
    MaskSumIsOr(layers, nEpochs, nPicks, e, c);
  }

  /** When every other metric's mask is False at a cell, the summed mask there is the
      remaining metric's cell. */
  lemma SummedSingleMetric(masks: map<Metric, seq<seq<bool>>>, nEpochs: nat, nPicks: nat, m: Metric, e: nat, c: nat)
    requires CatalogMasks(masks, nEpochs, nPicks) && m in masks && e < nEpochs && c < nPicks
    requires forall m' :: m' in masks && m' != m ==> !masks[m'][e][c]
    ensures MaskSum(CatalogLayers(masks), nEpochs, nPicks)[e][c] == masks[m][e][c]
  {
    var layers := CatalogLayers(masks);
    var a := IndexOf(CellCatalog, m);
    CellCatalogDistinct();
    forall i | 0 <= i < |layers| && i != a && e < |layers[i]| && c < |layers[i][e]|
      ensures !layers[i][e][c]
    {
      assert CellCatalog[i] != CellCatalog[a];
    }
    SummedSingleLayer(layers, nEpochs, nPicks, a, e, c);
  }

  /** A channel is in the combined result of `find_bad_channels` exactly when some
      (group, metric) step reported it. */
  lemma CombinedBadChannels(rec: Recording, nm: Numerics, params: FasterParams, picks: seq<nat>,
                            groups: seq<seq<nat>>, x: string)
    requires Inputs(rec, nm, picks, groups)
    requires BadChannels(rec, nm, params, picks, groups).Ok?
    ensures var metrics := UsedMetrics(params.useMetrics, ChannelCatalog);
      var t := ChannelTable(rec, nm, params, picks, groups);
      x in CombineIndices(BadChannels(rec, nm, params, picks, groups).value) <==>
        exists g, j :: 0 <= g < |groups| && 0 <= j < |metrics| && x in t[g][j].value
  {
    CombinedSteps(ChannelTable(rec, nm, params, picks, groups), UsedMetrics(params.useMetrics, ChannelCatalog), x);
  }

  /** In the summarised result of `find_bad_channels_in_epochs`, epoch e lists a channel
      exactly when some metric's mask marks one of its picked columns in that epoch. */
  lemma CombinedCellNames(rec: Recording, nm: Numerics, params: FasterParams, picks: seq<nat>,
                          groups: seq<seq<nat>>, e: nat, x: string)
    requires Inputs(rec, nm, picks, groups)
    requires BadCellMasks(rec, nm, params, picks, groups).Ok?
    requires e < |rec.data|
    ensures var masks := BadCellMasks(rec, nm, params, picks, groups).value;
      x in BadMaskToNames(PickedNames(rec, picks), MaskSum(CatalogLayers(masks), |rec.data|, |picks|))[e] <==>
        exists m, c :: m in masks && 0 <= c < |picks| && masks[m][e][c] && rec.chNames[picks[c]] == x
  {
    var masks := BadCellMasks(rec, nm, params, picks, groups).value;
    SummedNames(PickedNames(rec, picks), masks, |rec.data|, e, x);
  }

  /** With a single metric run, the summarised mask is that metric's own mask: the other
      catalog masks stay all False. */
  lemma SingleMetricMaskSum(rec: Recording, nm: Numerics, params: FasterParams, picks: seq<nat>,
                            groups: seq<seq<nat>>, m: Metric, e: nat, c: nat)
    requires Inputs(rec, nm, picks, groups)
    requires params.useMetrics == Some([m]) && m in CellCatalog
    requires BadCellMasks(rec, nm, params, picks, groups).Ok?
    requires e < |rec.data| && c < |picks|
    ensures var masks := BadCellMasks(rec, nm, params, picks, groups).value;
      MaskSum(CatalogLayers(masks), |rec.data|, |picks|)[e][c] == masks[m][e][c]
  {
    var masks := BadCellMasks(rec, nm, params, picks, groups).value;
    forall m' | m' in masks && m' != m
      ensures !masks[m'][e][c]
    {
      assert m' !in UsedMetrics(params.useMetrics, CellCatalog);
      BadCellMasksMarked(rec, nm, params, picks, groups, m', e, c);
    }
    SummedSingleMetric(masks, |rec.data|, |picks|, m, e, c);
  }
}

/** The three detection loops of faster_.py: bad channels, bad epochs and bad
    channels in epochs. The statistics are abstract collaborators (`Numerics`);
    what is modelled is the loop, index, shape and mask bookkeeping around them. */
module Faster {
  import opened Common
  import opened Spectral
  import opened Geometry
  import opened Aggregation
  import opened Masks

  /** The epochs collaborator: the signal block, its channel metadata and its sample rate. */
  datatype Recording = Recording(
    data: seq<seq<seq<real>>>,   // epochs.get_data(): epochs x channels x samples
    nSamples: nat,               // samples per epoch
    chNames: seq<string>,        // epochs.ch_names
    chs: seq<ChannelInfo>,       // epochs.info['chs']
    tenSfreq: nat)               // 10 * epochs.info['sfreq'], a positive integer
  {
    ghost predicate Valid()
    {
      && |chNames| == |chs|
      && tenSfreq >= 1
      && (forall c :: 0 <= c < |chs| ==> |chs[c].loc| >= 6)
      && (forall e :: 0 <= e < |data| ==> |data[e]| == |chs|)
      && (forall e, c :: 0 <= e < |data| && 0 <= c < |data[e]| ==> |data[e][c]| == nSamples)
    }
  }

  /** The numeric collaborators, known only by the shapes of their results: the spectral
      estimator, the metric lambdas of each level, the distance regression curve, and
      find_outliers (distinct indices below the length of the score vector). */
  datatype Numerics = Numerics(
    welch: Welch,
    channelMetric: (Metric, seq<seq<real>>) -> seq<real>,
    epochMetric: (Metric, seq<seq<seq<real>>>) -> seq<real>,
    cellMetric: (Metric, seq<seq<seq<real>>>) -> seq<seq<real>>,
    fit: CurveFit,
    findOutliers: (seq<real>, real, nat) -> seq<nat>)
  {
    ghost predicate Valid()
    {
      && welch.Valid()
      && ValidFit(fit)
      && (forall m, rows :: |channelMetric(m, rows)| == |rows|)
      && (forall m, block :: |epochMetric(m, block)| == |block|)
      && (forall m, block :: SameShape(cellMetric(m, block), block))
      && (forall scores, thresh, maxIter :: IndicesBelow(findOutliers(scores, thresh, maxIter), |scores|))
    }
  }

  /** An epochs x channels surface with one value per channel of each epoch of the block. */
  predicate SameShape(surface: seq<seq<real>>, block: seq<seq<seq<real>>>)
  {
    |surface| == |block| && forall e :: 0 <= e < |block| ==> |surface[e]| == |block[e]|
  }

  /** The "faster" method parameters. */
  datatype FasterParams = FasterParams(
    useMetrics: Option<seq<Metric>>,  // None: every metric of the level's catalog
    thresh: real,
    maxIter: nat,
    eegRefCorr: bool)                 // not a parameter of the bad-epoch level

  /** Line-noise target frequencies, in Hz. */
  const LineFreqs: seq<real> := [50.0, 60.0]

  /** Picked channel indices lie within the recording. */
  predicate PicksValid(rec: Recording, picks: seq<nat>)
  {
    forall i :: 0 <= i < |picks| ==> picks[i] < |rec.chs|
  }

  ghost predicate Inputs(rec: Recording, nm: Numerics, picks: seq<nat>, groups: seq<seq<nat>>)
  {
    rec.Valid() && nm.Valid() && PicksValid(rec, picks) && GroupsValid(groups, |picks|)
  }

  /** The optional reference-distance correction of one score vector. */
  function Corrected(rec: Recording, nm: Numerics, params: FasterParams, picks: seq<nat>, scores: seq<real>)
    : (r: Result<seq<real>>)
    requires rec.Valid() && nm.Valid() && PicksValid(rec, picks)
    ensures r.Ok? ==> |r.value| == |scores|
    ensures !params.eegRefCorr ==> r == Ok(scores)
  {
    if params.eegRefCorr then DistanceCorrection(nm.fit, rec.chs, picks, scores) else Ok(scores)
  }

  // ---------------------------------------------------------------- bad channels

  /** data[:, picks] with the epochs joined in time: one row per picked channel. */
  function ConcatEpochs(rec: Recording, picks: seq<nat>): seq<seq<real>>
    requires rec.Valid() && PicksValid(rec, picks)
  {
    seq(|picks|, c requires 0 <= c < |picks| =>
      Flatten(seq(|rec.data|, e requires 0 <= e < |rec.data| => rec.data[e][picks[c]])))
  }

  /** The joined data has one row per picked channel, and row c at position
      e * n_samples + s holds data[e][picks[c]][s]: epochs are joined in order. */
  lemma ConcatEpochsLayout(rec: Recording, picks: seq<nat>, c: nat, e: nat, s: nat)
    requires rec.Valid() && PicksValid(rec, picks)
    requires c < |picks| && e < |rec.data| && s < rec.nSamples
    ensures |ConcatEpochs(rec, picks)| == |picks|
    ensures |ConcatEpochs(rec, picks)[c]| == |rec.data| * rec.nSamples
    ensures e * rec.nSamples + s < |ConcatEpochs(rec, picks)[c]|
    ensures ConcatEpochs(rec, picks)[c][e * rec.nSamples + s] == rec.data[e][picks[c]][s]
  {
    var xss := seq(|rec.data|, e' requires 0 <= e' < |rec.data| => rec.data[e'][picks[c]]);
    assert ConcatEpochs(rec, picks)[c] == Flatten(xss);
    FlattenUniformLength(xss, rec.nSamples);
    FlattenUniformAt(xss, rec.nSamples, e, s);
  }

  /** data[chs]: the rows of one channel group. */
  function GroupRows(rows: seq<seq<real>>, chs: seq<nat>): (r: seq<seq<real>>)
    requires forall k :: 0 <= k < |chs| ==> chs[k] < |rows|
    ensures |r| == |chs|
  {
    seq(|chs|, k requires 0 <= k < |chs| => rows[chs[k]])
  }

  /** metrics[metric](data[chs]) at the bad-channel level. */
  function ChannelScores(rec: Recording, nm: Numerics, m: Metric, rows: seq<seq<real>>): (r: Result<seq<real>>)
    requires rec.Valid() && nm.Valid()
    ensures r.Ok? ==> |r.value| == |rows|
    ensures m !in ChannelCatalog ==> r == Err(UnknownMetric(m))
    ensures r.Err? && m in ChannelCatalog ==> m == LineNoise && r.error == LineNoiseRate
  {
    if m !in ChannelCatalog then Err(UnknownMetric(m))
    else if m == LineNoise then FreqsPower(nm.welch, rows, |rec.data| * rec.nSamples, rec.tenSfreq, LineFreqs)
    else Ok(nm.channelMetric(m, rows))
  }

  /** The scores of one group under one metric, corrected when asked to. */
  function CorrectedChannelScores(rec: Recording, nm: Numerics, params: FasterParams, picks: seq<nat>,
                                  m: Metric, rows: seq<seq<real>>): (r: Result<seq<real>>)
    requires rec.Valid() && nm.Valid() && PicksValid(rec, picks)
    ensures r.Ok? ==> |r.value| == |rows|
  {
    var scores :- ChannelScores(rec, nm, m, rows);
    Corrected(rec, nm, params, picks, scores)
  }

  /** One (group, metric) step of `_find_bad_channels`: the names of the group's outlier channels. */
  function ChannelStep(rec: Recording, nm: Numerics, params: FasterParams, picks: seq<nat>,
                       chs: seq<nat>, rows: seq<seq<real>>, m: Metric): (r: Result<seq<string>>)
    requires rec.Valid() && nm.Valid() && PicksValid(rec, picks) && GroupValid(chs, |picks|)
    requires |rows| == |chs|
    ensures var s := CorrectedChannelScores(rec, nm, params, picks, m, rows);
      (r.Err? <==> s.Err?) && (r.Err? ==> r.error == s.error)
    ensures r.Ok? ==> |r.value| <= |chs|
    ensures r.Ok? ==> var s := CorrectedChannelScores(rec, nm, params, picks, m, rows).value;
      |r.value| == |nm.findOutliers(s, params.thresh, params.maxIter)|
  {
    var scores :- CorrectedChannelScores(rec, nm, params, picks, m, rows);
    var out := nm.findOutliers(scores, params.thresh, params.maxIter);
    IndicesBelowLength(out, |chs|);
    Ok(seq(|out|, k requires 0 <= k < |out| => rec.chNames[picks[chs[out[k]]]]))
  }

  /** Each name a step reports is ch_names[picks[chs[i]]] for an outlier index i of the
      group's (corrected) scores. */
  lemma ChannelStepNames(rec: Recording, nm: Numerics, params: FasterParams, picks: seq<nat>,
                         chs: seq<nat>, rows: seq<seq<real>>, m: Metric, k: nat)
    requires rec.Valid() && nm.Valid() && PicksValid(rec, picks) && GroupValid(chs, |picks|)
    requires |rows| == |chs|
    requires ChannelStep(rec, nm, params, picks, chs, rows, m).Ok?
    requires k < |ChannelStep(rec, nm, params, picks, chs, rows, m).value|
    ensures var out := nm.findOutliers(CorrectedChannelScores(rec, nm, params, picks, m, rows).value,
                                       params.thresh, params.maxIter);
      exists i :: 0 <= i < |chs| && i in out &&
        ChannelStep(rec, nm, params, picks, chs, rows, m).value[k] == rec.chNames[picks[chs[i]]]
  {
    var out := nm.findOutliers(CorrectedChannelScores(rec, nm, params, picks, m, rows).value,
                               params.thresh, params.maxIter);
    assert out[k] in out;
  }

  /** Conversely, every outlier index i of the group's (corrected) scores is a group position,
      and the name ch_names[picks[chs[i]]] is reported. */
  lemma ChannelStepComplete(rec: Recording, nm: Numerics, params: FasterParams, picks: seq<nat>,
                            chs: seq<nat>, rows: seq<seq<real>>, m: Metric, i: nat)
    requires rec.Valid() && nm.Valid() && PicksValid(rec, picks) && GroupValid(chs, |picks|)
    requires |rows| == |chs|
    requires ChannelStep(rec, nm, params, picks, chs, rows, m).Ok?
    requires i in nm.findOutliers(CorrectedChannelScores(rec, nm, params, picks, m, rows).value,
                                  params.thresh, params.maxIter)
    ensures i < |chs| && rec.chNames[picks[chs[i]]] in ChannelStep(rec, nm, params, picks, chs, rows, m).value
  {
    var out := nm.findOutliers(CorrectedChannelScores(rec, nm, params, picks, m, rows).value,
                               params.thresh, params.maxIter);
    var k :| 0 <= k < |out| && out[k] == i;
    assert ChannelStep(rec, nm, params, picks, chs, rows, m).value[k] == rec.chNames[picks[chs[i]]];
  }

  /** The loop body of `_find_bad_channels` for group g and a metric, over the joined data. */
  function ChannelStepAt(rec: Recording, nm: Numerics, params: FasterParams, picks: seq<nat>,
                         groups: seq<seq<nat>>, rows: seq<seq<real>>): (nat, Metric) --> Result<seq<string>>
  {
    (g: nat, m: Metric) requires g < |groups| && Inputs(rec, nm, picks, groups) && |rows| == |picks| =>
      ChannelStep(rec, nm, params, picks, groups[g], GroupRows(rows, groups[g]), m)
  }

  /** Every (group, metric) step of `_find_bad_channels`, in loop order. */
  function ChannelTable(rec: Recording, nm: Numerics, params: FasterParams, picks: seq<nat>,
                        groups: seq<seq<nat>>): (t: seq<seq<Result<seq<string>>>>)
    requires Inputs(rec, nm, picks, groups)
    ensures |t| == |groups|
    ensures forall g :: 0 <= g < |t| ==> |t[g]| == |UsedMetrics(params.useMetrics, ChannelCatalog)|
  {
    Table(|groups|, UsedMetrics(params.useMetrics, ChannelCatalog),
          ChannelStepAt(rec, nm, params, picks, groups, ConcatEpochs(rec, picks)))
  }

  /** What `_find_bad_channels` returns: the empty-selection error when nothing is picked (the
      reshape of an empty block fails), else the first error in loop order, or per metric the
      concatenation of its per-group lists. */
  function BadChannels(rec: Recording, nm: Numerics, params: FasterParams, picks: seq<nat>,
                       groups: seq<seq<nat>>): Result<map<Metric, seq<string>>>
    requires Inputs(rec, nm, picks, groups)
  {
    if |picks| == 0 then Err(EmptySelection)
    else Detect(ChannelTable(rec, nm, params, picks, groups), UsedMetrics(params.useMetrics, ChannelCatalog))
  }

  /** `_find_bad_channels`: loops over channel groups, then metrics, appending each step's
      channel names to the metric's list, and joins each metric's lists at the end. */
  method FindBadChannels(rec: Recording, nm: Numerics, params: FasterParams, picks: seq<nat>,
                         groups: seq<seq<nat>>) returns (r: Result<map<Metric, seq<string>>>)
    requires Inputs(rec, nm, picks, groups)
    ensures r == BadChannels(rec, nm, params, picks, groups)
    ensures |picks| == 0 ==> r == Err(EmptySelection)
  {
    if |picks| == 0 {
      return Err(EmptySelection);
    }
    var data := ConcatEpochs(rec, picks);
    r := DetectLoop(|groups|, UsedMetrics(params.useMetrics, ChannelCatalog),
                    ChannelStepAt(rec, nm, params, picks, groups, data));
  }

  /** Each name a (group, metric) step of the table reports is the name of one of the
      group's channels. */
  lemma ChannelTableNames(rec: Recording, nm: Numerics, params: FasterParams, picks: seq<nat>,
                          groups: seq<seq<nat>>, g: nat, j: nat, k: nat)
    requires Inputs(rec, nm, picks, groups)
    requires g < |groups| && j < |UsedMetrics(params.useMetrics, ChannelCatalog)|
    requires ChannelTable(rec, nm, params, picks, groups)[g][j].Ok?
    requires k < |ChannelTable(rec, nm, params, picks, groups)[g][j].value|
    ensures exists i :: 0 <= i < |groups[g]| &&
                        ChannelTable(rec, nm, params, picks, groups)[g][j].value[k] == rec.chNames[picks[groups[g][i]]]
  {
    var rows := GroupRows(ConcatEpochs(rec, picks), groups[g]);
    var m := UsedMetrics(params.useMetrics, ChannelCatalog)[j];
    assert ChannelTable(rec, nm, params, picks, groups)[g][j] == ChannelStep(rec, nm, params, picks, groups[g], rows, m);
    ChannelStepNames(rec, nm, params, picks, groups[g], rows, m, k);
  }

  /** The names of the channels of the groups: ch_names[picks[chs[i]]] for each group chs. */
  function GroupNames(rec: Recording, picks: seq<nat>, groups: seq<seq<nat>>): (names: set<string>)
    requires rec.Valid() && PicksValid(rec, picks) && GroupsValid(groups, |picks|)
    ensures forall x :: x in names <==>
      exists g, i :: 0 <= g < |groups| && 0 <= i < |groups[g]| && x == rec.chNames[picks[groups[g][i]]]
  {
    set g, i | 0 <= g < |groups| && 0 <= i < |groups[g]| :: rec.chNames[picks[groups[g][i]]]
  }

  /** Every reported channel is the name of a channel of some group. */
  lemma BadChannelsReported(rec: Recording, nm: Numerics, params: FasterParams, picks: seq<nat>,
                            groups: seq<seq<nat>>, m: Metric, x: string)
    requires Inputs(rec, nm, picks, groups)
    requires BadChannels(rec, nm, params, picks, groups).Ok?
    ensures var b := BadChannels(rec, nm, params, picks, groups).value;
      m in b && x in b[m] ==> x in GroupNames(rec, picks, groups)
  {
    var t: seq<seq<Result<seq<string>>>> := ChannelTable(rec, nm, params, picks, groups);
    var names := GroupNames(rec, picks, groups);
    forall g, j, k | 0 <= g < |t| && 0 <= j < |t[g]| && t[g][j].Ok? && 0 <= k < |t[g][j].value|
      ensures t[g][j].value[k] in names
    {
      ChannelTableNames(rec, nm, params, picks, groups, g, j, k);
    }
    DetectReportsOnly(t, UsedMetrics(params.useMetrics, ChannelCatalog), names, m, x);
  }

  /** Some outlier index of group chs's (corrected) scores under m is a channel named x. */
  ghost predicate OutlierNamed(rec: Recording, nm: Numerics, params: FasterParams, picks: seq<nat>,
                               chs: seq<nat>, m: Metric, x: string)
    requires rec.Valid() && nm.Valid() && PicksValid(rec, picks) && GroupValid(chs, |picks|)
  {
    var s := CorrectedChannelScores(rec, nm, params, picks, m, GroupRows(ConcatEpochs(rec, picks), chs));
    s.Ok? && exists i :: 0 <= i < |chs| && i in nm.findOutliers(s.value, params.thresh, params.maxIter)
                         && rec.chNames[picks[chs[i]]] == x
  }

  /** A successful (group, metric) step of the table reports x exactly when an outlier of the
      group's scores under that metric is named x. */
  lemma ChannelTableMember(rec: Recording, nm: Numerics, params: FasterParams, picks: seq<nat>,
                           groups: seq<seq<nat>>, g: nat, j: nat, x: string)
    requires Inputs(rec, nm, picks, groups)
    requires g < |groups| && j < |UsedMetrics(params.useMetrics, ChannelCatalog)|
    ensures var metrics := UsedMetrics(params.useMetrics, ChannelCatalog);
      var t := ChannelTable(rec, nm, params, picks, groups);
      t[g][j].Ok? && x in t[g][j].value <==>
        t[g][j].Ok? && OutlierNamed(rec, nm, params, picks, groups[g], metrics[j], x)
  {
    var rows := GroupRows(ConcatEpochs(rec, picks), groups[g]);
    var m := UsedMetrics(params.useMetrics, ChannelCatalog)[j];
    var step := ChannelStep(rec, nm, params, picks, groups[g], rows, m);
    assert ChannelTable(rec, nm, params, picks, groups)[g][j] == step;
    if step.Ok? {
      var out := nm.findOutliers(CorrectedChannelScores(rec, nm, params, picks, m, rows).value,
                                 params.thresh, params.maxIter);
      if x in step.value {
        var k :| 0 <= k < |step.value| && step.value[k] == x;
        ChannelStepNames(rec, nm, params, picks, groups[g], rows, m, k);
      }
      if OutlierNamed(rec, nm, params, picks, groups[g], m, x) {
        var i :| 0 <= i < |groups[g]| && i in out && rec.chNames[picks[groups[g][i]]] == x;
        ChannelStepComplete(rec, nm, params, picks, groups[g], rows, m, i);
      }
    }
  }

  /** A channel is reported under metric m exactly when, in some channel group, an outlier
      of that group's scores under m is a channel of that name. */
  lemma BadChannelsMember(rec: Recording, nm: Numerics, params: FasterParams, picks: seq<nat>,
                          groups: seq<seq<nat>>, m: Metric, x: string)
    requires Inputs(rec, nm, picks, groups)
    requires BadChannels(rec, nm, params, picks, groups).Ok?
    ensures var b := BadChannels(rec, nm, params, picks, groups).value;
      var metrics := UsedMetrics(params.useMetrics, ChannelCatalog);
      (m in b && x in b[m]) <==>
        exists g, j :: 0 <= g < |groups| && 0 <= j < |metrics| && metrics[j] == m
          && OutlierNamed(rec, nm, params, picks, groups[g], metrics[j], x)
  {
    var metrics := UsedMetrics(params.useMetrics, ChannelCatalog);
    var t: seq<seq<Result<seq<string>>>> := ChannelTable(rec, nm, params, picks, groups);
    var b := BadChannels(rec, nm, params, picks, groups).value;
    assert Detect(t, metrics).value == b;
    DetectStepsOk(t, metrics);
    DetectMember(t, metrics, m, x);
    if m in b && x in b[m] {
      var g, j :| 0 <= g < |t| && 0 <= j < |metrics| && metrics[j] == m && x in t[g][j].value;
      ChannelTableMember(rec, nm, params, picks, groups, g, j, x);
    }
    if exists g, j :: 0 <= g < |groups| && 0 <= j < |metrics| && metrics[j] == m
                      && OutlierNamed(rec, nm, params, picks, groups[g], metrics[j], x) {
      var g, j :| 0 <= g < |groups| && 0 <= j < |metrics| && metrics[j] == m
                  && OutlierNamed(rec, nm, params, picks, groups[g], metrics[j], x);
      assert |t[g]| == |metrics|;
      var step := t[g][j];
      assert step.Ok?;
      ChannelTableMember(rec, nm, params, picks, groups, g, j, x);
      assert x in step.value;
    }
  }

  /** The reference-distance correction is fitted against every picked channel, not the
      group's: with the correction on, a group smaller than the picks fails the fit
      whenever its scores and the geometry are otherwise fine. */
  lemma CorrectionFailsOnPartialGroup(rec: Recording, nm: Numerics, params: FasterParams, picks: seq<nat>,
                                      chs: seq<nat>, rows: seq<seq<real>>, m: Metric)
    requires rec.Valid() && nm.Valid() && PicksValid(rec, picks) && GroupValid(chs, |picks|)
    requires |rows| == |chs|
    requires params.eegRefCorr && |chs| != |picks|
    requires ChannelScores(rec, nm, m, rows).Ok?
    requires forall i :: 0 <= i < |picks| ==>
      !AllZero(rec.chs[picks[i]].loc[..3]) && !AllZero(rec.chs[picks[i]].loc[3..6])
    ensures ChannelStep(rec, nm, params, picks, chs, rows, m) == Err(FitLengthMismatch)
  {
    if |chs| > 0 {
      assert chs[0] < |picks|;
    }
    var scores := ChannelScores(rec, nm, m, rows).value;
    var r := DistanceCorrection(nm.fit, rec.chs, picks, scores);
    assert r.Err?;
    assert r != Err(MissingPosition) && r != Err(MissingReference);
  }

  // ---------------------------------------------------------------- bad epochs

  /** data[:, picks] */
  function PickedData(rec: Recording, picks: seq<nat>): (block: seq<seq<seq<real>>>)
    requires rec.Valid() && PicksValid(rec, picks)
    ensures |block| == |rec.data|
    ensures forall e :: 0 <= e < |block| ==> |block[e]| == |picks|
  {
    seq(|rec.data|, e requires 0 <= e < |rec.data| =>
      seq(|picks|, k requires 0 <= k < |picks| => rec.data[e][picks[k]]))
  }

  /** block[:, chs]: the channels of one group in every epoch. */
  function GroupBlock(block: seq<seq<seq<real>>>, chs: seq<nat>, nPicks: nat): (r: seq<seq<seq<real>>>)
    requires forall e :: 0 <= e < |block| ==> |block[e]| == nPicks
    requires GroupValid(chs, nPicks)
    ensures |r| == |block|
    ensures forall e :: 0 <= e < |r| ==> |r[e]| == |chs|
  {
    seq(|block|, e requires 0 <= e < |block| =>
      seq(|chs|, k requires 0 <= k < |chs| => block[e][chs[k]]))
  }

  /** One (group, metric) step of `_find_bad_epochs`: the outlier epochs of the group's scores. */
  function EpochStep(nm: Numerics, params: FasterParams, m: Metric, block: seq<seq<seq<real>>>)
    : (r: Result<seq<nat>>)
    requires nm.Valid()
    ensures r.Err? <==> m !in EpochCatalog
    ensures r.Err? ==> r.error == UnknownMetric(m)
    ensures r.Ok? ==> IndicesBelow(r.value, |block|) && |r.value| <= |block|
  {
    if m !in EpochCatalog then Err(UnknownMetric(m))
    else
      var out := nm.findOutliers(nm.epochMetric(m, block), params.thresh, params.maxIter);
      IndicesBelowLength(out, |block|);
      Ok(out)
  }

  /** The loop body of `_find_bad_epochs` for group g and a metric, over the picked data. */
  function EpochStepAt(rec: Recording, nm: Numerics, params: FasterParams, picks: seq<nat>,
                       groups: seq<seq<nat>>, data: seq<seq<seq<real>>>): (nat, Metric) --> Result<seq<nat>>
  {
    (g: nat, m: Metric) requires g < |groups| && Inputs(rec, nm, picks, groups) && data == PickedData(rec, picks) =>
      EpochStep(nm, params, m, GroupBlock(data, groups[g], |picks|))
  }

  /** Every (group, metric) step of `_find_bad_epochs`, in loop order. */
  function EpochTable(rec: Recording, nm: Numerics, params: FasterParams, picks: seq<nat>,
                      groups: seq<seq<nat>>): (t: seq<seq<Result<seq<nat>>>>)
    requires Inputs(rec, nm, picks, groups)
    ensures |t| == |groups|
    ensures forall g :: 0 <= g < |t| ==> |t[g]| == |UsedMetrics(params.useMetrics, EpochCatalog)|
  {
    Table(|groups|, UsedMetrics(params.useMetrics, EpochCatalog),
          EpochStepAt(rec, nm, params, picks, groups, PickedData(rec, picks)))
  }

  /** What `_find_bad_epochs` returns: the empty-selection error when nothing is picked
      (pick_info rejects it), else the result of the detection loop. */
  function BadEpochs(rec: Recording, nm: Numerics, params: FasterParams, picks: seq<nat>,
                     groups: seq<seq<nat>>): Result<map<Metric, seq<nat>>>
    requires Inputs(rec, nm, picks, groups)
  {
    if |picks| == 0 then Err(EmptySelection)
    else Detect(EpochTable(rec, nm, params, picks, groups), UsedMetrics(params.useMetrics, EpochCatalog))
  }

  /** `_find_bad_epochs`: the same loop as `_find_bad_channels`, over per-epoch scores. */
  method FindBadEpochs(rec: Recording, nm: Numerics, params: FasterParams, picks: seq<nat>,
                       groups: seq<seq<nat>>) returns (r: Result<map<Metric, seq<nat>>>)
    requires Inputs(rec, nm, picks, groups)
    ensures r == BadEpochs(rec, nm, params, picks, groups)
    ensures |picks| == 0 ==> r == Err(EmptySelection)
  {
    if |picks| == 0 {
      return Err(EmptySelection);
    }
    var data := PickedData(rec, picks);
    r := DetectLoop(|groups|, UsedMetrics(params.useMetrics, EpochCatalog),
                    EpochStepAt(rec, nm, params, picks, groups, data));
  }

  /** An epoch is reported under a metric exactly when some group's step for that metric
      found it. */
  lemma BadEpochsReported(rec: Recording, nm: Numerics, params: FasterParams, picks: seq<nat>,
                          groups: seq<seq<nat>>, m: Metric, x: nat)
    requires Inputs(rec, nm, picks, groups)
    requires BadEpochs(rec, nm, params, picks, groups).Ok?
    ensures var b := BadEpochs(rec, nm, params, picks, groups).value;
      var metrics := UsedMetrics(params.useMetrics, EpochCatalog);
      var t: seq<seq<Result<seq<nat>>>> := EpochTable(rec, nm, params, picks, groups);
      (m in b && x in b[m]) <==>
        exists g, j :: 0 <= g < |groups| && 0 <= j < |metrics| && metrics[j] == m && x in t[g][j].value
  {
    DetectMember(EpochTable(rec, nm, params, picks, groups), UsedMetrics(params.useMetrics, EpochCatalog), m, x);
  }

  /** Every reported epoch is a valid epoch index. */
  lemma BadEpochsInRange(rec: Recording, nm: Numerics, params: FasterParams, picks: seq<nat>,
                         groups: seq<seq<nat>>, m: Metric, x: nat)
    requires Inputs(rec, nm, picks, groups)
    requires BadEpochs(rec, nm, params, picks, groups).Ok?
    ensures var b := BadEpochs(rec, nm, params, picks, groups).value;
      m in b && x in b[m] ==> x < |rec.data|
  {
    var t: seq<seq<Result<seq<nat>>>> := EpochTable(rec, nm, params, picks, groups);
    forall g, j | 0 <= g < |t| && 0 <= j < |t[g]| && t[g][j].Ok?
      ensures IndicesBelow(t[g][j].value, |rec.data|)
    {
      var block := GroupBlock(PickedData(rec, picks), groups[g], |picks|);
      assert t[g][j] == EpochStep(nm, params, UsedMetrics(params.useMetrics, EpochCatalog)[j], block);
    }
    DetectBelow(t, UsedMetrics(params.useMetrics, EpochCatalog), |rec.data|, m, x);
  }

  // ---------------------------------------------------------------- bad channels in epochs

  /** metrics[metric](data[:, chs]) at the channel-in-epoch level: an epochs x channels score surface. */
  function CellScores(rec: Recording, nm: Numerics, m: Metric, block: seq<seq<seq<real>>>)
    : (r: Result<seq<seq<real>>>)
    requires rec.Valid() && nm.Valid()
    ensures r.Ok? ==> m in CellCatalog
    ensures r.Ok? ==> |r.value| == |block| && forall e :: 0 <= e < |block| ==> |r.value[e]| == |block[e]|
    ensures m !in CellCatalog ==> r == Err(UnknownMetric(m))
  {
    if m !in CellCatalog then Err(UnknownMetric(m))
    else if m == LineNoise then FreqsPowerEpochs(nm.welch, block, rec.nSamples, rec.tenSfreq, LineFreqs)
    else Ok(nm.cellMetric(m, block))
  }

  /** The outlier channels of one epoch's scores, after the optional correction. */
  function EpochOutliers(rec: Recording, nm: Numerics, params: FasterParams, picks: seq<nat>, scores: seq<real>)
    : (r: Result<seq<nat>>)
    requires rec.Valid() && nm.Valid() && PicksValid(rec, picks)
    ensures r.Ok? ==> IndicesBelow(r.value, |scores|)
  {
    var corrected :- Corrected(rec, nm, params, picks, scores);
    Ok(nm.findOutliers(corrected, params.thresh, params.maxIter))
  }

  /** One (group, metric) step of `_find_bad_channels_in_epochs`: for each epoch, the outlier
      positions within the group; the first failing epoch's error otherwise. */
  function CellStep(rec: Recording, nm: Numerics, params: FasterParams, picks: seq<nat>, m: Metric,
                    block: seq<seq<seq<real>>>): (r: Result<seq<seq<nat>>>)
    requires rec.Valid() && nm.Valid() && PicksValid(rec, picks)
    ensures r.Ok? ==> m in CellCatalog && |r.value| == |block|
    ensures r.Ok? ==> forall e :: 0 <= e < |block| ==> IndicesBelow(r.value[e], |block[e]|)
    ensures m !in CellCatalog ==> r == Err(UnknownMetric(m))
  {
    var scores :- CellScores(rec, nm, m, block);
    Collect(seq(|scores|, e requires 0 <= e < |scores| => EpochOutliers(rec, nm, params, picks, scores[e])))
  }

  /** The loop body of `_find_bad_channels_in_epochs` for group g and a metric. */
  function CellStepAt(rec: Recording, nm: Numerics, params: FasterParams, picks: seq<nat>,
                      groups: seq<seq<nat>>, data: seq<seq<seq<real>>>): (nat, Metric) --> Result<seq<seq<nat>>>
  {
    (g: nat, m: Metric) requires g < |groups| && Inputs(rec, nm, picks, groups) && data == PickedData(rec, picks) =>
      CellStep(rec, nm, params, picks, m, GroupBlock(data, groups[g], |picks|))
  }

  /** Every (group, metric) step of `_find_bad_channels_in_epochs`, in loop order. */
  function CellTable(rec: Recording, nm: Numerics, params: FasterParams, picks: seq<nat>,
                     groups: seq<seq<nat>>): (t: seq<seq<Result<seq<seq<nat>>>>>)
    requires Inputs(rec, nm, picks, groups)
    ensures |t| == |groups|
    ensures forall g :: 0 <= g < |t| ==> |t[g]| == |UsedMetrics(params.useMetrics, CellCatalog)|
  {
    Table(|groups|, UsedMetrics(params.useMetrics, CellCatalog),
          CellStepAt(rec, nm, params, picks, groups, PickedData(rec, picks)))
  }

  /** What `_find_bad_channels_in_epochs` returns: the empty-selection error when nothing is
      picked (pick_info rejects it), else the first error in loop order, or for every
      catalog metric an (epochs x picks) mask whose cell (e, c) is set exactly when some group's
      step under that metric found c's position an outlier of epoch e. */
  ghost function BadCellMasks(rec: Recording, nm: Numerics, params: FasterParams, picks: seq<nat>,
                              groups: seq<seq<nat>>): Result<map<Metric, seq<seq<bool>>>>
    requires Inputs(rec, nm, picks, groups)
  {
    if |picks| == 0 then Err(EmptySelection)
    else MaskTable(CellTable(rec, nm, params, picks, groups), groups, UsedMetrics(params.useMetrics, CellCatalog),
                   CellCatalog, |rec.data|, |picks|)
  }

  /** A catalog metric that is not run keeps an all-False mask, and a metric's mask has a cell
      set exactly when one of its (group, metric) steps marked it. */
  lemma BadCellMasksMarked(rec: Recording, nm: Numerics, params: FasterParams, picks: seq<nat>,
                           groups: seq<seq<nat>>, m: Metric, e: nat, c: nat)
    requires Inputs(rec, nm, picks, groups)
    requires BadCellMasks(rec, nm, params, picks, groups).Ok?
    requires m in CellCatalog && e < |rec.data| && c < |picks|
    ensures var metrics := UsedMetrics(params.useMetrics, CellCatalog);
      var t := CellTable(rec, nm, params, picks, groups);
      BadCellMasks(rec, nm, params, picks, groups).value[m][e][c] <==>
        exists g, j :: 0 <= g < |groups| && 0 <= j < |metrics| && metrics[j] == m
          && Hits(t[g][j].value, groups[g], e, c)
    ensures m !in UsedMetrics(params.useMetrics, CellCatalog) ==>
      !BadCellMasks(rec, nm, params, picks, groups).value[m][e][c]
  {
    MaskTableMarked(CellTable(rec, nm, params, picks, groups), groups, UsedMetrics(params.useMetrics, CellCatalog),
                    CellCatalog, |rec.data|, |picks|, m, e, c);
  }

  /** `_find_bad_channels_in_epochs`: allocates an all-False (epochs x picks) mask for every
      catalog metric, then for each group, metric and epoch sets the cells of the outlier channels. */
  method FindBadChannelsInEpochs(rec: Recording, nm: Numerics, params: FasterParams, picks: seq<nat>,
                                 groups: seq<seq<nat>>) returns (r: Result<map<Metric, seq<seq<bool>>>>)
    requires Inputs(rec, nm, picks, groups)
    ensures r == BadCellMasks(rec, nm, params, picks, groups)
    ensures |picks| == 0 ==> r == Err(EmptySelection)
  {
    if |picks| == 0 {
      return Err(EmptySelection);
    }
    var metrics := UsedMetrics(params.useMetrics, CellCatalog);
    var data := PickedData(rec, picks);
    var step := CellStepAt(rec, nm, params, picks, groups, data);
    forall g, j | 0 <= g < |groups| && 0 <= j < |metrics|
      ensures StepFits(step(g, metrics[j]), CellCatalog, metrics[j], |rec.data|, |groups[g]|)
    {
      var block := GroupBlock(data, groups[g], |picks|);
      assert step(g, metrics[j]) == CellStep(rec, nm, params, picks, metrics[j], block);
    }
    CellCatalogDistinct();
    r := MarkLoop(CellCatalog, |rec.data|, |picks|, groups, metrics, step);
  }
}

# FASTER bad-data detection: a Dafny model of its bookkeeping

This project models the index, shape and mask bookkeeping of the FASTER bad-data
detector of `mne_sandbox.preprocessing.bads`. It covers the three detection levels:

- bad channels over concatenated epochs;
- bad epochs;
- bad channels within each epoch.

It also models the public entry points that dispatch on the detection method and shape
the result.

The statistics are not modelled. These stay abstract collaborators, fields of the
`Faster.Numerics` record, and each is known only by the shape of what it returns:

- the metric lambdas;
- the Welch spectral estimate;
- the distance-to-reference regression curve;
- `find_outliers`, which returns distinct indices below the length of its score vector.

What is modelled exactly, and proved:

- **Spectral helpers** (`Spectral`).
  - The Welch segment length is the smallest power of two strictly above 10·sfreq, clamped to
    the sample count, with no overlap.
  - `searchsorted` lookup of frequency bins.
  - The line-noise and power-gradient error conditions, each an if-and-only-if.
- **Reference-distance correction** (`Geometry`). The position check runs before the reference
  check, then numpy's length check on the regression, then the element-wise subtraction of the
  fitted curve.
- **Detection loop of the first two levels** (`Aggregation`). A `defaultdict(list)` is appended
  group by group and metric by metric. Any failing step aborts the loop with its error. The
  per-metric lists are then concatenated. `Aggregation.DetectLoop` is the loop. `Aggregation.Detect`
  is its specification. Lemmas give membership, key sets and group-order concatenation.
- **Channel-in-epoch level** (`Masks`). It uses one `array3<bool>` of (catalog metric, epoch,
  picked channel) cells. Cells are set in place and never cleared. Masks are allocated for every
  catalog metric, not only the used ones. `Masks.MarkLoop` is proved against `Masks.MaskTable`.
- **The three `_find_*` functions** (`Faster`). Each is an instance of the loops above with:
  - its metric catalog, where a missing `use_metrics` means every catalog key (`Common.UsedMetrics`);
  - its per-(group, metric) step: score the group's rows, optionally correct the scores, map
    outlier indices back through `chs` and `picks`.

  An empty pick list fails with an empty-selection error. In the code, `pick_info`, the reshape
  and numpy's row-wise reductions all reject an empty selection.

  As in the code, the correction receives the full `picks` rather than the group's channels. It
  therefore fails whenever a channel group is smaller than the picks.
- **Entry points of `bads.py`** (`Bads`).
  - The "faster" dispatch, with `NotImplemented` for any other method.
  - `return_by_metric` passthrough.
  - `_combine_indices` as a set.
  - The summed (OR-ed) channel-in-epoch mask.
  - `_bad_mask_to_names`.

## Model

| member | source | states |
|---|---|---|
| Common.CellCatalogDistinct | mne_sandbox/preprocessing/bads/faster_.py:341-348 | the channel-in-epoch metric names are pairwise distinct, as the keys of the metrics dictionary are |
| Spectral.FloorLog2 | mne_sandbox/preprocessing/bads/faster_.py:112 | `int(log2(t))` for a positive integer t is the k with 2^k <= t < 2^(k+1) |
| Spectral.NextPow2Above | mne_sandbox/preprocessing/bads/faster_.py:111-112 | `2 ** int(log2(t) + 1)` is a power of two strictly above t and at most 2t |
| Spectral.NextPow2AboveIsSmallest | mne_sandbox/preprocessing/bads/faster_.py:111-112 | no power of two strictly above t is smaller than the chosen one |
| Spectral.WelchSegmentation | mne_sandbox/preprocessing/bads/faster_.py:111-114 | nperseg is min(n_samples, next power of two above 10·sfreq), so at most n_samples; noverlap is 0; a clamped-below length still exceeds 10·sfreq |
| Spectral.Spectra | mne_sandbox/preprocessing/bads/faster_.py:114 | the power spectra have one row per input row and one column per frequency bin |
| Spectral.SearchSorted | mne_sandbox/preprocessing/bads/faster_.py:137 | the bin index is at most len(fs); every earlier bin lies below f; the bin found, if any, is at or above f |
| Spectral.SearchSortedInsertionPoint | mne_sandbox/preprocessing/bads/faster_.py:137 | on a sorted axis every bin from the index on is at or above f, and the index is len(fs) exactly when fs is empty or its last bin lies below f |
| Spectral.FreqBins | mne_sandbox/preprocessing/bads/faster_.py:137 | the bin lookup fails exactly when some target frequency's index is len(fs); otherwise every target gets its searchsorted bin, which is in range |
| Spectral.FreqsPower | mne_sandbox/preprocessing/bads/faster_.py:117-142 | `_freqs_power` fails with the line-noise rate error exactly when a target has no bin; otherwise each row's value is the sum of its power at the targets' bins |
| Spectral.FreqsPowerEpochs | mne_sandbox/preprocessing/bads/faster_.py:117-142 | the same for an epochs × channels block: same error condition, and one summed value per channel of each epoch |
| Spectral.LineNoiseErrorIff | mne_sandbox/preprocessing/bads/faster_.py:135-142 | on a sorted frequency axis, line-noise power fails exactly when some target frequency exceeds the highest bin (or there are no bins) |
| Spectral.PowerGradient | mne_sandbox/preprocessing/bads/faster_.py:164-177 | `_power_gradient` fails with the gradient rate error exactly when the lower edge's bin index is at least the number of bins; otherwise each row keeps exactly the bins [start, stop) |
| Spectral.PowerGradientBandInRange | mne_sandbox/preprocessing/bads/faster_.py:167-174 | on a sorted axis every kept bin lies at or above the lower band edge and below the upper one |
| Geometry.AnyAllZero | mne_sandbox/preprocessing/bads/faster_.py:36-40 | `np.any(np.all(rows == 0, axis=1))` holds exactly when some row is all zeros |
| Geometry.DistanceCorrection | mne_sandbox/preprocessing/bads/faster_.py:12-52 | an empty selection fails with the empty-selection error; otherwise the position error iff some selected position is all zeros; the reference error iff all positions are set and some reference is all zeros; success iff the selection is non-empty, both checks pass and the scores match the picks in length; then each score minus the fitted curve, of the same length |
| Aggregation.FlattenMember | mne_sandbox/preprocessing/bads/faster_.py:262 | an item is in the concatenation exactly when it is in one of the lists |
| Aggregation.FlattenUniformLength | mne_sandbox/preprocessing/bads/faster_.py:246 | concatenating k lists of length n gives k·n items |
| Aggregation.FlattenUniformAt | mne_sandbox/preprocessing/bads/faster_.py:246 | in that concatenation, position e·n + s holds item s of list e |
| Aggregation.Collect | mne_sandbox/preprocessing/bads/faster_.py:253-260 | running steps in order succeeds iff every step succeeds, and then yields their values; otherwise it raises the first failing step's error |
| Aggregation.CollectAllOk | mne_sandbox/preprocessing/bads/faster_.py:253-260 | steps that all succeed yield exactly their values |
| Aggregation.CollectFirstError | mne_sandbox/preprocessing/bads/faster_.py:253-260 | the error raised is that of the first failing step |
| Aggregation.CollectTable | mne_sandbox/preprocessing/bads/faster_.py:251-260 | the nested group/metric loop succeeds iff every step succeeds, and then yields every step's value in place |
| Aggregation.CollectTableFirstError | mne_sandbox/preprocessing/bads/faster_.py:251-260 | the nested loop raises the error of the first failing step in group-then-metric order |
| Aggregation.CollectTableOk | mne_sandbox/preprocessing/bads/faster_.py:251-260 | a table of successful steps yields exactly their values |
| Aggregation.DetectStepsOk | mne_sandbox/preprocessing/bads/faster_.py:251-260 | a detection that succeeds ran every (group, metric) step successfully |
| Aggregation.AppendSteps | mne_sandbox/preprocessing/bads/faster_.py:253-260 | one group's metric loop raises the first step error, or appends each metric's list to its entry in metric order |
| Aggregation.Detect | mne_sandbox/preprocessing/bads/faster_.py:249-263 | the detection result fails iff some (group, metric) step fails; otherwise it is the per-metric concatenation of the step lists |
| Aggregation.DetectLoop | mne_sandbox/preprocessing/bads/faster_.py:249-263 | the loop over groups and metrics, appending to a defaultdict and then concatenating, returns exactly `Detect` of the step table |
| Aggregation.ConcatenatedKeys | mne_sandbox/preprocessing/bads/faster_.py:262 | with at least one group, the result's keys are exactly the used metrics; with none, the result is empty |
| Aggregation.ConcatenatedInGroupOrder | mne_sandbox/preprocessing/bads/faster_.py:249-262 | with distinct metrics, a metric's result is its per-group lists concatenated in group order |
| Aggregation.ConcatenatedMember | mne_sandbox/preprocessing/bads/faster_.py:260-262 | an item is reported under m exactly when some (group, m) step reported it |
| Aggregation.DetectMember | mne_sandbox/preprocessing/bads/faster_.py:249-263 | a successful detection lists x under m exactly when some (group, metric) step for m reported x |
| Aggregation.DetectBelow | mne_sandbox/preprocessing/bads/faster_.py:304-308 | when every step reports indices below n, so does the result |
| Aggregation.DetectInGroupOrder | mne_sandbox/preprocessing/bads/faster_.py:249-262 | with distinct metrics and at least one group, the keys are exactly the used metrics and each value is that metric's step lists joined in group order |
| Aggregation.DetectReportsOnly | mne_sandbox/preprocessing/bads/faster_.py:257-262 | when every step reports only items of a set, so does the result |
| Masks.GroupMarksExists | mne_sandbox/preprocessing/bads/faster_.py:360-372 | after one group's first n metrics, a cell is marked for m exactly when one of those steps for m hit it |
| Masks.MarkedBeforeExists | mne_sandbox/preprocessing/bads/faster_.py:357-372 | after the first groups, a cell is marked for m exactly when some (group, m) step hit it |
| Masks.MaskTable | mne_sandbox/preprocessing/bads/faster_.py:355-374 | the masks fail iff some step fails; otherwise every catalog metric has an (epochs × picks) mask whose cell (e, c) is set iff c = chs[k] for an outlier k of epoch e under a used metric |
| Masks.MaskTableOk | mne_sandbox/preprocessing/bads/faster_.py:355-374 | masks with those keys, that shape and those cells are the specified result |
| Masks.MaskTableMarked | mne_sandbox/preprocessing/bads/faster_.py:355-372 | a cell is set iff some (group, metric) step for m hit it; a catalog metric that is not used keeps an all-False mask |
| Masks.MarkOutliers | mne_sandbox/preprocessing/bads/faster_.py:364-372 | `bads[metric][i_epochs, chs[outliers]] = True` for every epoch: a cell becomes True iff it was True or is hit; other metrics' masks are unchanged |
| Masks.MarkGroup | mne_sandbox/preprocessing/bads/faster_.py:360-372 | one group's metric loop either raises the first step error or sets exactly the hit cells on top of the old ones |
| Masks.MarkLoop | mne_sandbox/preprocessing/bads/faster_.py:353-374 | allocating all-False masks for the catalog and running the group/metric loop returns exactly `MaskTable` of the step table, read back as a dictionary keyed by every catalog metric |
| Faster.Corrected | mne_sandbox/preprocessing/bads/faster_.py:255-256 | without the reference correction the scores pass unchanged; with it, a corrected vector has the scores' length |
| Faster.ConcatEpochsLayout | mne_sandbox/preprocessing/bads/faster_.py:244-246 | the concatenated data has one row per picked channel of n_epochs·n_samples values, and row c at e·n_samples + s holds data[e][picks[c]][s] |
| Faster.GroupRows | mne_sandbox/preprocessing/bads/faster_.py:254 | `data[chs]` has one row per group channel |
| Faster.ChannelScores | mne_sandbox/preprocessing/bads/faster_.py:230-254 | a metric outside the bad-channel catalog raises the unknown-metric error; only line noise can otherwise fail, with the line-noise rate error; scores have one value per row |
| Faster.CorrectedChannelScores | mne_sandbox/preprocessing/bads/faster_.py:254-256 | the (possibly corrected) scores have one value per row |
| Faster.ChannelStep | mne_sandbox/preprocessing/bads/faster_.py:254-258 | a step fails exactly when its scoring or correction fails, with that error; otherwise it reports one name per outlier index of the group's scores, so at most one per group channel |
| Faster.ChannelStepNames | mne_sandbox/preprocessing/bads/faster_.py:257-258 | every reported name is ch_names[picks[chs[i]]] for an outlier index i of the group's scores |
| Faster.ChannelStepComplete | mne_sandbox/preprocessing/bads/faster_.py:257-258 | conversely, every outlier index i of the group's scores is a group position whose name ch_names[picks[chs[i]]] is reported |
| Faster.ChannelTable | mne_sandbox/preprocessing/bads/faster_.py:251-258 | one row of steps per channel group, one step per used metric |
| Faster.FindBadChannels | mne_sandbox/preprocessing/bads/faster_.py:200-263 | an empty pick list fails with the empty-selection error; otherwise the bad-channel loop returns exactly `Detect` of the channel step table |
| Faster.ChannelTableNames | mne_sandbox/preprocessing/bads/faster_.py:257-258 | each name in a (group, metric) step is the name of one of that group's picked channels |
| Faster.ChannelTableMember | mne_sandbox/preprocessing/bads/faster_.py:251-258 | a successful (group, metric) step lists x exactly when x names one of the group's outlier channels for that metric |
| Faster.GroupNames | mne_sandbox/preprocessing/bads/faster_.py:257 | the names of the grouped picked channels, exactly |
| Faster.BadChannelsReported | mne_sandbox/preprocessing/bads/faster_.py:249-263 | every reported bad channel is the name of a channel in one of the groups |
| Faster.BadChannelsMember | mne_sandbox/preprocessing/bads/faster_.py:249-263 | a successful detection lists channel x under m exactly when, for some group, x is the name of an outlier of that group's (corrected) scores under m |
| Faster.CorrectionFailsOnPartialGroup | mne_sandbox/preprocessing/bads/faster_.py:255-256 | with the correction on, a group with fewer channels than picks (and located channels) fails with the regression length error, because the full picks are passed |
| Faster.PickedData | mne_sandbox/preprocessing/bads/faster_.py:297 | `get_data()[:, picks]` keeps every epoch and one row per pick |
| Faster.GroupBlock | mne_sandbox/preprocessing/bads/faster_.py:303 | `data[:, chs]` keeps every epoch and one row per group channel |
| Faster.EpochStep | mne_sandbox/preprocessing/bads/faster_.py:287-304 | a step fails exactly for a metric outside the bad-epoch catalog; otherwise it reports distinct epoch indices in range |
| Faster.EpochTable | mne_sandbox/preprocessing/bads/faster_.py:300-306 | one row of steps per channel group, one step per used metric |
| Faster.FindBadEpochs | mne_sandbox/preprocessing/bads/faster_.py:266-309 | an empty pick list fails with the empty-selection error; otherwise the bad-epoch loop returns exactly `Detect` of the epoch step table |
| Faster.BadEpochsReported | mne_sandbox/preprocessing/bads/faster_.py:299-308 | an epoch is reported under m exactly when some group's outliers for m contain it |
| Faster.BadEpochsInRange | mne_sandbox/preprocessing/bads/faster_.py:304-308 | every reported epoch is a valid epoch index |
| Faster.CellScores | mne_sandbox/preprocessing/bads/faster_.py:341-363 | a metric outside the channel-in-epoch catalog raises the unknown-metric error; scores have one value per channel of each epoch |
| Faster.EpochOutliers | mne_sandbox/preprocessing/bads/faster_.py:364-367 | one epoch's outliers, after the optional correction, are distinct indices into its scores |
| Faster.CellStep | mne_sandbox/preprocessing/bads/faster_.py:363-367 | per epoch, the outlier indices into the group's channels; the unknown-metric error for a name outside the catalog |
| Faster.CellTable | mne_sandbox/preprocessing/bads/faster_.py:357-367 | one row of steps per channel group, one step per used metric |
| Faster.BadCellMasksMarked | mne_sandbox/preprocessing/bads/faster_.py:355-372 | cell (e, c) of metric m is set iff c = chs[k] for an outlier k of epoch e under m in some group; unused catalog metrics stay all False |
| Faster.FindBadChannelsInEpochs | mne_sandbox/preprocessing/bads/faster_.py:312-374 | an empty pick list fails with the empty-selection error; otherwise the channel-in-epoch loop returns exactly `MaskTable` of the cell step table |
| Bads.CombineIndices | mne_sandbox/preprocessing/bads/bads.py:261-263 | an item is in the combined result exactly when it appears under some metric, each once (a set) |
| Bads.TrueColumns | mne_sandbox/preprocessing/bads/bads.py:257 | `np.where(row)[0]`: strictly increasing columns, each True, and every True column appears |
| Bads.RowNames | mne_sandbox/preprocessing/bads/bads.py:258 | one name per True column, and a name appears exactly when some True column carries it |
| Bads.RowNamesInColumnOrder | mne_sandbox/preprocessing/bads/bads.py:257-258 | an earlier name in a row's list belongs to an earlier True column |
| Bads.BadMaskToNames | mne_sandbox/preprocessing/bads/bads.py:255-258 | one list per mask row, as long as the row's True count, holding exactly the names of its True columns |
| Bads.Votes | mne_sandbox/preprocessing/bads/bads.py:249 | the count at a cell of the summed masks is at most the number of masks |
| Bads.VotesPositive | mne_sandbox/preprocessing/bads/bads.py:249 | the count is positive exactly when some mask has the cell True |
| Bads.MaskSum | mne_sandbox/preprocessing/bads/bads.py:249 | the summed mask has the epochs × picks shape |
| Bads.MaskSumIsOr | mne_sandbox/preprocessing/bads/bads.py:249 | `sum(...).astype(bool)` is the cell-wise OR of the masks |
| Bads.FindBadChannels | mne_sandbox/preprocessing/bads/bads.py:79-92 | a method other than "faster" raises NotImplemented; otherwise errors pass through; by metric the mapping is returned unchanged; combined, a name is present exactly when some metric reported it |
| Bads.FindBadEpochs | mne_sandbox/preprocessing/bads/bads.py:153-166 | the same dispatch, passthrough and combination for bad epoch indices |
| Bads.FindBadChannelsInEpochs | mne_sandbox/preprocessing/bads/bads.py:233-252 | the same dispatch and error passthrough; by metric, the same keys as the masks with each mask turned into names; combined, the OR of all masks turned into names |
| Bads.CombinedSteps | mne_sandbox/preprocessing/bads/bads.py:261-263 | an item is in the combined detection result exactly when some (group, metric) step reported it |
| Bads.SummedNames | mne_sandbox/preprocessing/bads/bads.py:248-250 | epoch e of the combined names lists x exactly when some metric's mask marks a column named x in that epoch |
| Bads.SummedSingleLayer | mne_sandbox/preprocessing/bads/bads.py:249 | where every mask but one is False, the OR is that mask's cell |
| Bads.SummedSingleMetric | mne_sandbox/preprocessing/bads/bads.py:249 | where every other metric's mask is False, the OR is the remaining metric's cell |
| Bads.CombinedBadChannels | mne_sandbox/preprocessing/bads/bads.py:89-92 | a channel is in the combined `find_bad_channels` result exactly when some (group, metric) step reported it |
| Bads.CombinedCellNames | mne_sandbox/preprocessing/bads/bads.py:245-250 | epoch e of the combined channel-in-epoch result lists a channel exactly when some metric's mask marks one of its picked columns in that epoch |
| Bads.SingleMetricMaskSum | mne_sandbox/preprocessing/bads/bads.py:246-250 | with a single used metric, the combined mask equals that metric's mask, because the other catalog masks stay all False |

## Left out

- Metric statistics are not modelled: variance, correlation, Hurst exponent, kurtosis, peak-to-peak, deviation and median gradient. Each is an abstract function that returns one score per channel (or per epoch, or per epoch and channel). These are floating-point NumPy and SciPy numerics.
- Welch spectral values are abstract (`Spectral.Welch`), and the distance regression is abstract too (normalisation, arccos, polyfit and polyval become `Geometry.CurveFit`). Only their shapes are known.
- The statistics of `find_outliers` are out of scope, and `outliers.py` is not part of this model. It is an abstract function that returns distinct indices below the score vector's length.
- The sample rate enters only as 10·sfreq, taken to be a positive integer. `int(np.log2(...))` on a non-integer rate is not modelled.
- Metric names are an enumeration of the names the three catalogs know. A name from another level's catalog raises the unknown-metric error, as the KeyError does. Names outside every catalog cannot be expressed.
- The MNE plumbing is not modelled: `pick_types` defaults for `picks` (including `exclude='bads'` in `find_bad_epochs`), `_handle_default`, `pick_info`, `epochs.get_data`, the `@verbose` decorator and logging. The channel groups that `_picks_by_type` would produce are given as an input. `_handle_default` is assumed to return the method parameters unchanged. The code calls it before testing the method (mne_sandbox/preprocessing/bads/bads.py:81-82, 155-156 and 236-237), so the `NotImplemented` result for a method other than "faster" also rests on this assumption: an unknown method may make `_handle_default` raise first.
- Bads.CombineIndices: the result is a set; the order of the list Python builds from it follows hash order and is not modelled.
- Faster.FindBadChannelsInEpochs: within one (group, metric) step, every epoch's outliers are computed before any cell is marked. The code marks epoch by epoch. The outcome is the same because a failure aborts the whole call and discards the masks.
- Spectral.PowerGradient: none of the metric catalogs uses `_power_gradient`. It is modelled on its own, and its mean of differences is left abstract (the kept band is what is stated).
- The docstring of `_efficient_welch` (mne_sandbox/preprocessing/bads/faster_.py:91-93) speaks of a window of about ten seconds. The code takes the smallest power of two strictly above 10·sfreq samples, clamped to the sample count, and the model follows the code.

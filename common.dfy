/** Vocabulary shared by the FASTER detector model: metric names, the errors the
    detector raises, and a failure-compatible result type. */
module Common {

  /** The metric names known to the three detection levels. */
  datatype Metric =
    | Variance
    | Correlation
    | Hurst
    | Kurtosis
    | LineNoise
    | Amplitude
    | Deviation
    | MedianGradient

  /** Every way a detection call can fail. */
  datatype Error =
    | NotImplemented          // a detection method other than "faster"
    | UnknownMetric(metric: Metric)  // a metric name missing from the level's catalog (KeyError)
    | LineNoiseRate           // a line-noise frequency lies above the highest spectral bin
    | GradientRate            // the power-gradient band starts above the highest spectral bin
    | MissingPosition         // a selected channel has an all-zero sensor position
    | MissingReference        // a selected channel has an all-zero reference position
    | FitLengthMismatch       // the distance regression got scores and positions of different lengths
    | EmptySelection          // no channel selected: pick_info, the reshape and numpy's row reductions reject it

  datatype Option<T> = None | Some(value: T)

  datatype Result<T> = Ok(value: T) | Err(error: Error) {
    predicate IsFailure() { Err? }

    function PropagateFailure<U>(): Result<U>
      requires Err?
    {
      Err(error)
    }

    function Extract(): T
      requires Ok?
    {
      value
    }
  }

  /** Metric catalog of the bad-channel level, in its dictionary order. */
  const ChannelCatalog: seq<Metric> := [Variance, Correlation, Hurst, Kurtosis, LineNoise]

  /** Metric catalog of the bad-epoch level, in its dictionary order. */
  const EpochCatalog: seq<Metric> := [Amplitude, Deviation, Variance]

  /** Metric catalog of the bad-channel-in-epoch level, in its dictionary order. */
  const CellCatalog: seq<Metric> := [Amplitude, Deviation, Variance, MedianGradient, LineNoise]

  /** Each catalog names every metric once. */
  lemma CellCatalogDistinct()
    ensures Distinct(CellCatalog)
  {
    forall i, j | 0 <= i < j < |CellCatalog|
      ensures CellCatalog[i] != CellCatalog[j]
    {
      assert CellCatalog[0] == Amplitude && CellCatalog[1] == Deviation && CellCatalog[2] == Variance;
      assert CellCatalog[3] == MedianGradient && CellCatalog[4] == LineNoise;
    }
  }

  /** The metrics a detection loop runs: the caller's list, or every catalog key when none is given. */
  function UsedMetrics(useMetrics: Option<seq<Metric>>, catalog: seq<Metric>): seq<Metric>
  {
    match useMetrics
    case None => catalog
    case Some(ms) => ms
  }

  /** A channel group (from `_picks_by_type`) indexes into the picked channels. */
  predicate GroupValid(chs: seq<nat>, nPicks: nat)
  {
    forall k :: 0 <= k < |chs| ==> chs[k] < nPicks
  }

  predicate GroupsValid(groups: seq<seq<nat>>, nPicks: nat)
  {
    forall g :: 0 <= g < |groups| ==> GroupValid(groups[g], nPicks)
  }

  /** The values of `s` are pairwise different. */
  predicate Distinct<T(==)>(s: seq<T>)
  {
    forall i, j :: 0 <= i < j < |s| ==> s[i] != s[j]
  }

  /** `s` lists distinct indices, all below `n`. */
  predicate IndicesBelow(s: seq<nat>, n: nat)
  {
    Distinct(s) && forall i :: 0 <= i < |s| ==> s[i] < n
  }

  /** Distinct indices below `n` are at most `n` in number. */
  lemma {:induction false} IndicesBelowLength(s: seq<nat>, n: nat)
    requires IndicesBelow(s, n)
    ensures |s| <= n
  {
    var elems := set i | 0 <= i < |s| :: s[i];
    assert elems <= Below(n);
    DistinctSetSize(s);
    SubsetSize(elems, Below(n));
  }

  /** The set {0, ..., n - 1}. */
  function Below(n: nat): (r: set<nat>)
    ensures |r| == n
    ensures forall c: nat :: c in r <==> c < n
  {
    if n == 0 then {} else Below(n - 1) + {n - 1}
  }

  lemma {:induction false} DistinctSetSize(s: seq<nat>)
    requires Distinct(s)
    ensures |set i | 0 <= i < |s| :: s[i]| == |s|
  {
    if |s| > 0 {
      var t := s[..|s| - 1];
      assert Distinct(t);
      DistinctSetSize(t);
      assert (set i | 0 <= i < |s| :: s[i]) == (set i | 0 <= i < |t| :: t[i]) + {s[|s| - 1]};
      assert s[|s| - 1] !in (set i | 0 <= i < |t| :: t[i]);
    }
  }

  lemma SubsetSize(a: set<nat>, b: set<nat>)
    requires a <= b
    ensures |a| <= |b|
  {
    assert b == a + (b - a);
  }
}

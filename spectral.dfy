/** The integer side of the spectral helpers of faster_.py: the segment length of
    the fast Welch estimate, the frequency-bin lookup (numpy's searchsorted), the
    line-noise power sum and the power-gradient band, with their error cases.
    The spectral estimate itself is an abstract collaborator (`Welch`). */
module Spectral {
  import opened Common

  /** 2 to the power k. */
  function Pow2(k: nat): (r: nat)
    ensures r >= 1
  {
    if k == 0 then 1 else 2 * Pow2(k - 1)
  }

  lemma {:induction false} Pow2Monotone(i: nat, j: nat)
    requires i <= j
    ensures Pow2(i) <= Pow2(j)
  {
    if i < j {
      Pow2Monotone(i, j - 1);
    }
  }

  /** The integer part of log2(t), for t >= 1. */
  function FloorLog2(t: nat): (k: nat)
    requires t >= 1
    ensures Pow2(k) <= t < Pow2(k + 1)
  {
    if t == 1 then 0 else 1 + FloorLog2(t / 2)
  }

  /** 2 ** int(log2(t) + 1): the next power of two above t. */
  function NextPow2Above(t: nat): (p: nat)
    requires t >= 1
    ensures t < p <= 2 * t
  {
    Pow2(FloorLog2(t) + 1)
  }

  /** No smaller power of two lies above t: NextPow2Above(t) is the smallest one. */
  lemma {:induction false} NextPow2AboveIsSmallest(t: nat, k: nat)
    requires t >= 1 && Pow2(k) > t
    ensures NextPow2Above(t) <= Pow2(k)
  {
    var f := FloorLog2(t);
    if k <= f {
      Pow2Monotone(k, f);
      assert false;
    }
    Pow2Monotone(f + 1, k);
  }

  /** The Welch parameters `_efficient_welch` passes on. */
  datatype Segmentation = Segmentation(nperseg: nat, noverlap: nat)

  /** Segment length min(n_samples, next power of two above 10 * sfreq), segments
      not overlapping; `tenSfreq` is 10 * sfreq, a positive integer. */
  function WelchSegmentation(nSamples: nat, tenSfreq: nat): (s: Segmentation)
    requires tenSfreq >= 1
    ensures s.noverlap == 0
    ensures s.nperseg <= nSamples && s.nperseg <= NextPow2Above(tenSfreq)
    ensures s.nperseg == nSamples || s.nperseg == NextPow2Above(tenSfreq)
    ensures s.nperseg < nSamples ==> s.nperseg > tenSfreq
  {
    var p := NextPow2Above(tenSfreq);
    Segmentation(if nSamples < p then nSamples else p, 0)
  }

  /** The spectral estimator (scipy's welch) for one timeseries: `freqAxis(n)`
      is the frequency axis for segment length n, `psd(x, n)` the power of x at
      each of those frequencies. */
  datatype Welch = Welch(freqAxis: nat -> seq<real>, psd: (seq<real>, nat) -> seq<real>)
  {
    ghost predicate Valid()
    {
      forall x, n :: |psd(x, n)| == |freqAxis(n)|
    }
  }

  /** Frequencies of the fast Welch estimate of timeseries with `nSamples` samples. */
  function Freqs(w: Welch, nSamples: nat, tenSfreq: nat): seq<real>
    requires tenSfreq >= 1
  {
    w.freqAxis(WelchSegmentation(nSamples, tenSfreq).nperseg)
  }

  /** Power spectra of the fast Welch estimate, one row per timeseries. */
  function Spectra(w: Welch, rows: seq<seq<real>>, nSamples: nat, tenSfreq: nat): (ps: seq<seq<real>>)
    requires w.Valid() && tenSfreq >= 1
    ensures |ps| == |rows|
    ensures forall i :: 0 <= i < |ps| ==> |ps[i]| == |Freqs(w, nSamples, tenSfreq)|
  {
    var n := WelchSegmentation(nSamples, tenSfreq).nperseg;
    seq(|rows|, i requires 0 <= i < |rows| => w.psd(rows[i], n))
  }

  ghost predicate Sorted(fs: seq<real>)
  {
    forall i, j :: 0 <= i <= j < |fs| ==> fs[i] <= fs[j]
  }

  /** numpy.searchsorted(fs, f) with side 'left': the first bin whose frequency is at least f,
      or |fs| when there is none. */
  function SearchSorted(fs: seq<real>, f: real): (i: nat)
    ensures i <= |fs|
    ensures forall j :: 0 <= j < i ==> fs[j] < f
    ensures i < |fs| ==> f <= fs[i]
  {
    if |fs| == 0 || f <= fs[0] then 0 else 1 + SearchSorted(fs[1..], f)
  }

  /** On a sorted axis the lookup is the insertion point: bins before it lie below f,
      bins from it on lie at or above f; it is |fs| exactly when f exceeds the highest bin. */
  lemma SearchSortedInsertionPoint(fs: seq<real>, f: real)
    requires Sorted(fs)
    ensures forall j :: SearchSorted(fs, f) <= j < |fs| ==> f <= fs[j]
    ensures SearchSorted(fs, f) == |fs| <==> (|fs| == 0 || fs[|fs| - 1] < f)
  {
  }

  /** The bin index of every target frequency, or None when one of them lies past the
      last bin (where indexing the spectrum raises IndexError). */
  function FreqBins(fs: seq<real>, freqs: seq<real>): (r: Option<seq<nat>>)
    ensures r.None? <==> exists k :: 0 <= k < |freqs| && SearchSorted(fs, freqs[k]) == |fs|
    ensures r.Some? ==> |r.value| == |freqs|
    ensures r.Some? ==> forall k :: 0 <= k < |freqs| ==> r.value[k] == SearchSorted(fs, freqs[k]) < |fs|
  {
    if freqs == [] then Some([])
    else
      var i := SearchSorted(fs, freqs[0]);
      if i == |fs| then None
      else
        match FreqBins(fs, freqs[1..])
        case None => None
        case Some(rest) => Some([i] + rest)
  }

  /** Sum of a power spectrum over the given bins. */
  function SumAt(row: seq<real>, bins: seq<nat>): real
    requires forall k :: 0 <= k < |bins| ==> bins[k] < |row|
  {
    if bins == [] then 0.0 else row[bins[0]] + SumAt(row, bins[1..])
  }

  /** `_freqs_power` on a block of timeseries (one row each). */
  function FreqsPower(w: Welch, rows: seq<seq<real>>, nSamples: nat, tenSfreq: nat, freqs: seq<real>)
    : (r: Result<seq<real>>)
    requires w.Valid() && tenSfreq >= 1
    ensures var fs := Freqs(w, nSamples, tenSfreq);
      r.Err? <==> exists k :: 0 <= k < |freqs| && SearchSorted(fs, freqs[k]) == |fs|
    ensures r.Err? ==> r.error == LineNoiseRate
    ensures r.Ok? ==> |r.value| == |rows|
    ensures r.Ok? ==> var ps := Spectra(w, rows, nSamples, tenSfreq);
      forall i :: 0 <= i < |rows| ==>
        r.value[i] == SumAt(ps[i], FreqBins(Freqs(w, nSamples, tenSfreq), freqs).value)
  {
    var fs := Freqs(w, nSamples, tenSfreq);
    var ps := Spectra(w, rows, nSamples, tenSfreq);
    match FreqBins(fs, freqs)
    case None => Err(LineNoiseRate)
    case Some(bins) => Ok(seq(|rows|, i requires 0 <= i < |rows| => SumAt(ps[i], bins)))
  }

  /** `_freqs_power` on an epochs x channels x samples block; the out-of-range check does
      not depend on the number of epochs. */
  function FreqsPowerEpochs(w: Welch, block: seq<seq<seq<real>>>, nSamples: nat, tenSfreq: nat, freqs: seq<real>)
    : (r: Result<seq<seq<real>>>)
    requires w.Valid() && tenSfreq >= 1
    ensures var fs := Freqs(w, nSamples, tenSfreq);
      r.Err? <==> exists k :: 0 <= k < |freqs| && SearchSorted(fs, freqs[k]) == |fs|
    ensures r.Err? ==> r.error == LineNoiseRate
    ensures r.Ok? ==> |r.value| == |block| && forall e :: 0 <= e < |block| ==> |r.value[e]| == |block[e]|
    ensures r.Ok? ==> forall e :: 0 <= e < |block| ==>
      Ok(r.value[e]) == FreqsPower(w, block[e], nSamples, tenSfreq, freqs)
  {
    var fs := Freqs(w, nSamples, tenSfreq);
    match FreqBins(fs, freqs)
    case None => Err(LineNoiseRate)
    case Some(bins) =>
      Ok(seq(|block|, e requires 0 <= e < |block| => FreqsPower(w, block[e], nSamples, tenSfreq, freqs).value))
  }

  /** With a sorted frequency axis, line-noise power fails exactly when some target
      frequency lies above the highest bin (or there are no bins). */
  lemma LineNoiseErrorIff(w: Welch, rows: seq<seq<real>>, nSamples: nat, tenSfreq: nat, freqs: seq<real>)
    requires w.Valid() && tenSfreq >= 1
    requires Sorted(Freqs(w, nSamples, tenSfreq))
    ensures var fs := Freqs(w, nSamples, tenSfreq);
      FreqsPower(w, rows, nSamples, tenSfreq, freqs).Err? <==>
        exists k :: 0 <= k < |freqs| && (|fs| == 0 || fs[|fs| - 1] < freqs[k])
  {
    var fs := Freqs(w, nSamples, tenSfreq);
    forall k | 0 <= k < |freqs|
      ensures SearchSorted(fs, freqs[k]) == |fs| <==> (|fs| == 0 || fs[|fs| - 1] < freqs[k])
    {
      SearchSortedInsertionPoint(fs, freqs[k]);
    }
  }

  /** The bins `_power_gradient` keeps: ps[:, start:stop], empty when stop <= start. */
  function Band(row: seq<real>, start: nat, stop: nat): seq<real>
    requires start <= stop <= |row| || stop <= start <= |row|
  {
    if start < stop then row[start..stop] else []
  }

  /** `_power_gradient` up to the kept spectrum: the band's bins, or an error when the lower
      band edge lies above every bin. The mean gradient over the band is not part of this model. */
  function PowerGradient(w: Welch, rows: seq<seq<real>>, nSamples: nat, tenSfreq: nat, lo: real, hi: real)
    : (r: Result<seq<seq<real>>>)
    requires w.Valid() && tenSfreq >= 1
    ensures var fs := Freqs(w, nSamples, tenSfreq);
      r.Err? <==> SearchSorted(fs, lo) >= |fs|
    ensures r.Err? ==> r.error == GradientRate
    ensures r.Ok? ==> var fs := Freqs(w, nSamples, tenSfreq);
      var ps := Spectra(w, rows, nSamples, tenSfreq);
      var start := SearchSorted(fs, lo);
      var stop := SearchSorted(fs, hi);
      |r.value| == |rows| &&
      forall i :: 0 <= i < |rows| ==>
        |r.value[i]| == (if start < stop then stop - start else 0) &&
        forall k :: 0 <= k < |r.value[i]| ==> r.value[i][k] == ps[i][start + k]
  {
    var fs := Freqs(w, nSamples, tenSfreq);
    var ps := Spectra(w, rows, nSamples, tenSfreq);
    var start := SearchSorted(fs, lo);
    var stop := SearchSorted(fs, hi);
    if start >= |fs| then Err(GradientRate)
    else Ok(seq(|ps|, i requires 0 <= i < |ps| => Band(ps[i], start, stop)))
  }

  /** On a sorted axis, every bin the power gradient keeps has a frequency in [lo, hi),
      and the error means lo lies above the highest bin. */
  lemma {:induction false} PowerGradientBandInRange(w: Welch, rows: seq<seq<real>>, nSamples: nat, tenSfreq: nat,
                                                    lo: real, hi: real, i: nat, k: nat)
    requires w.Valid() && tenSfreq >= 1
    requires Sorted(Freqs(w, nSamples, tenSfreq))
    requires PowerGradient(w, rows, nSamples, tenSfreq, lo, hi).Ok?
    requires i < |rows| && k < |PowerGradient(w, rows, nSamples, tenSfreq, lo, hi).value[i]|
    ensures var fs := Freqs(w, nSamples, tenSfreq);
      var start := SearchSorted(fs, lo);
      start + k < |fs| && lo <= fs[start + k] < hi
  {
    var fs := Freqs(w, nSamples, tenSfreq);
    var start := SearchSorted(fs, lo);
    var stop := SearchSorted(fs, hi);
    assert start + k < stop;
    SearchSortedInsertionPoint(fs, lo);
  }
}

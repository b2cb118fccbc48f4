/** The preconditions of `_distance_correction` in faster_.py: every selected
    channel needs a sensor position and a reference position before the scores
    are regressed on the angular distance to the reference. The regression
    itself (normalisation, arccos, quadratic polyfit/polyval) is abstract. */
module Geometry {
  import opened Common

  /** A channel's metadata entry: `loc` holds the sensor position in loc[0..3] and
      the reference sensor position in loc[3..6]. */
  datatype ChannelInfo = ChannelInfo(loc: seq<real>)

  /** The fitted quadratic curve: given the sensor positions, the reference positions and
      the scores (all of one length), its value at each channel. */
  type CurveFit = (seq<seq<real>>, seq<seq<real>>, seq<real>) -> seq<real>

  ghost predicate ValidFit(fit: CurveFit)
  {
    forall pos, ref, x :: |fit(pos, ref, x)| == |pos|
  }

  predicate AllZero(v: seq<real>)
  {
    forall i :: 0 <= i < |v| ==> v[i] == 0.0
  }

  /** np.any(np.all(rows == 0, axis=1)) */
  function AnyAllZero(rows: seq<seq<real>>): (b: bool)
    ensures b <==> exists i :: 0 <= i < |rows| && AllZero(rows[i])
  {
    if rows == [] then false else AllZero(rows[0]) || AnyAllZero(rows[1..])
  }

  /** The selected channels' indices are valid and every one has a full location entry. */
  predicate PicksLocated(chs: seq<ChannelInfo>, picks: seq<nat>)
  {
    forall i :: 0 <= i < |picks| ==> picks[i] < |chs| && |chs[picks[i]].loc| >= 6
  }

  function Positions(chs: seq<ChannelInfo>, picks: seq<nat>): (pos: seq<seq<real>>)
    requires PicksLocated(chs, picks)
    ensures |pos| == |picks|
    ensures forall i :: 0 <= i < |picks| ==> pos[i] == chs[picks[i]].loc[..3]
  {
    seq(|picks|, i requires 0 <= i < |picks| => chs[picks[i]].loc[..3])
  }

  function RefPositions(chs: seq<ChannelInfo>, picks: seq<nat>): (ref: seq<seq<real>>)
    requires PicksLocated(chs, picks)
    ensures |ref| == |picks|
    ensures forall i :: 0 <= i < |picks| ==> ref[i] == chs[picks[i]].loc[3..6]
  {
    seq(|picks|, i requires 0 <= i < |picks| => chs[picks[i]].loc[3..6])
  }

  /** `_distance_correction(info, picks, x)`: the position check comes first, then the
      reference check; the quadratic fit needs as many scores as selected channels
      (numpy's polyfit rejects differing lengths); otherwise each score loses the fitted
      curve's value at its channel. An empty selection gives one-dimensional empty arrays,
      on which the row-wise check itself fails. */
  function DistanceCorrection(fit: CurveFit, chs: seq<ChannelInfo>, picks: seq<nat>, x: seq<real>)
    : (r: Result<seq<real>>)
    requires ValidFit(fit) && PicksLocated(chs, picks)
    ensures r == Err(EmptySelection) <==> |picks| == 0
    ensures r == Err(MissingPosition) <==>
      exists i :: 0 <= i < |picks| && AllZero(chs[picks[i]].loc[..3])
    ensures r == Err(MissingReference) <==>
      (forall i :: 0 <= i < |picks| ==> !AllZero(chs[picks[i]].loc[..3])) &&
      (exists i :: 0 <= i < |picks| && AllZero(chs[picks[i]].loc[3..6]))
    ensures r.Ok? <==>
      (forall i :: 0 <= i < |picks| ==> !AllZero(chs[picks[i]].loc[..3]) && !AllZero(chs[picks[i]].loc[3..6])) &&
      |x| == |picks| > 0
    ensures r.Err? ==> r.error in {EmptySelection, MissingPosition, MissingReference, FitLengthMismatch}
    ensures r.Ok? ==> |r.value| == |x|
    ensures r.Ok? ==> var curve := fit(Positions(chs, picks), RefPositions(chs, picks), x);
      forall i :: 0 <= i < |x| ==> r.value[i] == x[i] - curve[i]
  {
    var pos := Positions(chs, picks);
    var ref := RefPositions(chs, picks);
    if |picks| == 0 then Err(EmptySelection)
    else if AnyAllZero(pos) then Err(MissingPosition)
    else if AnyAllZero(ref) then Err(MissingReference)
    else if |x| != |pos| then Err(FitLengthMismatch)
    else
      var curve := fit(pos, ref, x);
      Ok(seq(|x|, i requires 0 <= i < |x| => x[i] - curve[i]))
  }
}

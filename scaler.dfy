/** Feature standardisation (scaler.ts) against fixed per-feature means and scales. */
module Scaler {
  import opened Wrappers

  /** Per-feature means: 21 nutrient columns, then the carcinogenic and preservative flags. */
  const MEANS: seq<real> := [
    0.540231, 0.251841, 0.283135, 0.130083, 0.242574, 0.094791, 0.107183, 0.046784,
    0.149719, 0.064459, 0.129456, 0.135911, 0.18356, 0.051164, 0.041505, 0.1242,
    0.098355, 0.049541, 0.038166, 0.109792, 0.112457, 0.000646, 0.001363
  ]

  /** Per-feature scales, positionally aligned with `MEANS`. */
  const SCALES: seq<real> := [
    0.30769, 0.189228, 0.250197, 0.181585, 0.301201, 0.169502, 0.213167, 0.103439,
    0.204116, 0.106005, 0.129589, 0.180454, 0.230526, 0.10127, 0.118171, 0.17328,
    0.184447, 0.14984, 0.122351, 0.278485, 0.171398, 0.025399, 0.036891
  ]

  /** The error `scaleInput` throws: "Expected <expected> features, but received <received>." */
  datatype DimensionMismatch = DimensionMismatch(expected: nat, received: nat)

  /** Both tables have 23 entries and every scale is positive, so each division is defined. */
  lemma TablesWellFormed()
    ensures |MEANS| == |SCALES| == 23
    ensures forall i :: 0 <= i < |SCALES| ==> SCALES[i] > 0.0
  {
  }

  /**
   * `scaleInput`: an input of the wrong length is rejected; otherwise every element is
   * standardised against the constants at its own index.
   */
  function ScaleInput(rawFeatures: seq<real>): (r: Result<seq<real>, DimensionMismatch>)
    ensures r.Err? <==> |rawFeatures| != |MEANS|
    ensures r.Err? ==> r.error == DimensionMismatch(|MEANS|, |rawFeatures|)
    ensures r.Ok? ==> |r.value| == |rawFeatures|
    ensures r.Ok? ==> forall i :: 0 <= i < |rawFeatures| ==> r.value[i] == (rawFeatures[i] - MEANS[i]) / SCALES[i]
  {
    if |rawFeatures| != |MEANS| then Err(DimensionMismatch(|MEANS|, |rawFeatures|))
    else
      TablesWellFormed();
      Ok(seq(|rawFeatures|, i requires 0 <= i < |rawFeatures| => (rawFeatures[i] - MEANS[i]) / SCALES[i]))
  }

  /** The inverse standardisation. */
  function Unscale(scaled: seq<real>): (r: seq<real>)
    requires |scaled| == |MEANS|
    ensures |r| == |scaled|
  {
    seq(|scaled|, i requires 0 <= i < |scaled| => scaled[i] * SCALES[i] + MEANS[i])
  }

  /** Scaling loses nothing: undoing it gives the raw features back. */
  lemma ScaleRoundTrip(rawFeatures: seq<real>)
    requires |rawFeatures| == |MEANS|
    ensures ScaleInput(rawFeatures).Ok? && Unscale(ScaleInput(rawFeatures).value) == rawFeatures
  {
    TablesWellFormed();
    var scaled := ScaleInput(rawFeatures).value;
    forall i | 0 <= i < |rawFeatures| ensures Unscale(scaled)[i] == rawFeatures[i] {
      StandardiseInverse(rawFeatures[i], MEANS[i], SCALES[i]);
    }
  }

  lemma StandardiseInverse(x: real, mean: real, scale: real)
    requires scale > 0.0
    ensures ((x - mean) / scale) * scale + mean == x
  {
  }
}

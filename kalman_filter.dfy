/**
 * The flight computer's scalar Kalman filter for the barometric altitude:
 * a random-walk model with process variance 0.001 and measurement variance
 * 0.1, starting from estimate 0, error covariance 1 and gain 0.1.
 * Arithmetic is over the reals, not single-precision floats.
 */
module KalmanFilter {

  const ProcessVariance: real := 0.001
  const MeasurementVariance: real := 0.1

  /** estimated_altitude, error_covariance_bmp and kalman_gain_bmp. */
  datatype Estimate = Estimate(altitude: real, covariance: real, gain: real)

  function Initial(): (e: Estimate)
    ensures e.covariance > 0.0
  {
    Estimate(0.0, 1.0, 0.1)
  }

  /** The fraction of (p + Q) kept as error covariance, p / (p + R). */
  lemma GainBounds(p: real)
    requires p > 0.0
    ensures 0.0 < p / (p + MeasurementVariance) < 1.0
    ensures (1.0 - p / (p + MeasurementVariance)) * p == MeasurementVariance * (p / (p + MeasurementVariance))
  {
    var k := p / (p + MeasurementVariance);
    assert k * (p + MeasurementVariance) == p;
  }

  /** One call of kalmanFilter with measurement z. */
  function Update(e: Estimate, z: real): (e': Estimate)
    requires e.covariance >= 0.0
    ensures 0.0 < e'.gain < 1.0
    ensures e.altitude <= z ==> e.altitude <= e'.altitude <= z
    ensures z <= e.altitude ==> z <= e'.altitude <= e.altitude
    ensures z - e'.altitude == (1.0 - e'.gain) * (z - e.altitude)
    ensures 0.0 < e'.covariance < MeasurementVariance
  {
    var predicted := e.covariance + ProcessVariance;
    var gain := predicted / (predicted + MeasurementVariance);
    GainBounds(predicted);
    Estimate(e.altitude + gain * (z - e.altitude), (1.0 - gain) * predicted, gain)
  }

  /** The estimate after the measurements zs, in order. */
  function Updates(e: Estimate, zs: seq<real>): (e': Estimate)
    requires e.covariance >= 0.0
    ensures e'.covariance > 0.0 || (zs == [] && e' == e)
    decreases |zs|
  {
    if zs == [] then e else Update(Updates(e, zs[..|zs| - 1]), zs[|zs| - 1])
  }

  function Abs(x: real): real {
    if x < 0.0 then -x else x
  }

  /**
   * Under a constant measurement z, every update moves the estimate towards z
   * without passing it, and from the first update on the error covariance
   * stays strictly between 0 and the measurement variance.
   */
  lemma {:induction false} ConstantMeasurementApproaches(e: Estimate, z: real, n: nat)
    requires e.covariance >= 0.0
    ensures var zs := seq(n, _ => z);
      Abs(z - Updates(e, zs).altitude) <= Abs(z - e.altitude) &&
      (n > 0 ==> 0.0 < Updates(e, zs).covariance < MeasurementVariance)
  {
    var zs := seq(n, _ => z);
    if n > 0 {
      var prefix := seq(n - 1, _ => z);
      assert zs[..n - 1] == prefix;
      ConstantMeasurementApproaches(e, z, n - 1);
      var before := Updates(e, prefix);
      var after := Update(before, z);
      assert Updates(e, zs) == after;
      assert Abs(z - after.altitude) <= Abs(z - before.altitude);
    }
  }

  /** The filter's globals, overwritten by each call. */
  class AltitudeFilter {
    var estimatedAltitude: real
    var errorCovariance: real
    var kalmanGain: real

    ghost predicate Valid()
      reads this
    {
      errorCovariance >= 0.0
    }

    function State(): Estimate
      reads this
    {
      Estimate(estimatedAltitude, errorCovariance, kalmanGain)
    }

    constructor ()
      ensures Valid() && State() == Initial()
    {
      estimatedAltitude, errorCovariance, kalmanGain := 0.0, 1.0, 0.1;
    }

    /** kalmanFilter(z): update the globals and return the new estimate. */
    method Filter(z: real) returns (estimate: real)
      requires Valid()
      modifies this
      ensures Valid()
      ensures State() == Update(old(State()), z)
      ensures estimate == estimatedAltitude
    {
      var altitudePred := estimatedAltitude;
      var covariancePred := errorCovariance + ProcessVariance;
      kalmanGain := covariancePred / (covariancePred + MeasurementVariance);
      estimatedAltitude := altitudePred + kalmanGain * (z - altitudePred);
      errorCovariance := (1.0 - kalmanGain) * covariancePred;
      estimate := estimatedAltitude;
    }
  }
}

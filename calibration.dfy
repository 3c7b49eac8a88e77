/** Deriving the simulation priors from the empirical window statistics:
    Watterson's estimator, the effective population size and the prior bounds
    of the mutation and recombination rates. Arithmetic is over exact reals. */
module Calibration {
  import opened Common

  /** The harmonic number 1/1 + ... + 1/k, and 0 for k <= 0 (an empty range). */
  function HarmonicSum(k: int): real
    decreases k
  {
    if k <= 0 then 0.0 else HarmonicSum(k - 1) + 1.0 / (k as real)
  }

  /** The accumulation loop `for i in range(nSamps - 1): a += 1/(i+1)`: it runs
      nSamps - 1 times (never, when nSamps <= 1) and adds one term each time. */
  method WattersonDenominator(nSamps: int) returns (a: real)
    ensures a == HarmonicSum(nSamps - 1)
    ensures nSamps >= 2 ==> 1.0 <= a <= (nSamps - 1) as real
    ensures nSamps <= 1 ==> a == 0.0
  {
    a := 0.0;
    var i := 0;
    while i < nSamps - 1
      invariant 0 <= i <= Max(0, nSamps - 1)
      invariant a == HarmonicSum(i)
    {
      a := a + 1.0 / ((i + 1) as real);
      i := i + 1;
    }
    HarmonicSumBounds(nSamps - 1);
  }

  /** The harmonic number of k >= 1 lies between 1 and k; it is 0 otherwise. */
  lemma {:induction false} HarmonicSumBounds(k: int)
    ensures k <= 0 ==> HarmonicSum(k) == 0.0
    ensures k >= 1 ==> 1.0 <= HarmonicSum(k) <= k as real
    decreases k
  {
    if k >= 2 {
      HarmonicSumBounds(k - 1);
      assert 0.0 < 1.0 / (k as real) <= 1.0;
    }
  }

  /** The calibrated priors. rhoLow is fixed at 0. */
  datatype Priors = Priors(
    thetaW: real,
    ne: real,
    rhoLow: real,
    rhoHigh: real,
    muLow: real,
    muHigh: real)

  /** The denominator of the effective population size: four times the
      mutation rate times the accessible length of a window. */
  function NeDenominator(mu: real, maskFraction: real, maxLen: int): real {
    4.0 * mu * ((1.0 - maskFraction) * (maxLen as real))
  }

  /** Calibration from the largest window site count `maxS`, the sample count
      `nSamps`, the window length `maxLen`, the masked fraction, the assumed
      mutation rate and the upper rho/theta ratio. Python raises
      ZeroDivisionError when the harmonic sum is 0 (nSamps <= 1) and when the
      denominator of Ne is 0; both happen whether or not a demographic
      history is given, since Ne is computed first either way. */
  function Calibrate(maxS: int, nSamps: int, maxLen: int, maskFraction: real, mu: real, upRTR: real)
    : (r: Result<Priors, Failure>)
    ensures r.Err? <==> nSamps <= 1 || mu == 0.0 || maskFraction == 1.0 || maxLen == 0
    ensures r.Err? ==> r.error == ZeroDivision
    // Watterson: the segregating-site count is thetaW times the harmonic number of n - 1
    ensures r.Ok? ==> r.value.thetaW * HarmonicSum(nSamps - 1) == maxS as real
    ensures r.Ok? ==> r.value.ne * NeDenominator(mu, maskFraction, maxLen) == r.value.thetaW
    ensures r.Ok? ==> r.value.rhoLow == 0.0 && r.value.rhoHigh == mu * upRTR
    ensures r.Ok? ==> r.value.muLow == mu * 0.66 && r.value.muHigh == mu * 1.33
  {
    HarmonicSumBounds(nSamps - 1);
    var a := HarmonicSum(nSamps - 1);
    if a == 0.0 then Err(ZeroDivision)
    else
      var thetaW := (maxS as real) / a;
      var denom := NeDenominator(mu, maskFraction, maxLen);
      if denom == 0.0 then Err(ZeroDivision)
      else Ok(Priors(thetaW, thetaW / denom, 0.0, mu * upRTR, mu * 0.66, mu * 1.33))
  }

  /** With at least two samples, thetaW never exceeds the segregating-site
      count and is positive when that count is. */
  lemma ThetaWBounds(maxS: int, nSamps: int, maxLen: int, maskFraction: real, mu: real, upRTR: real)
    requires maxS >= 0
    requires Calibrate(maxS, nSamps, maxLen, maskFraction, mu, upRTR).Ok?
    ensures var p := Calibrate(maxS, nSamps, maxLen, maskFraction, mu, upRTR).value;
      0.0 <= p.thetaW <= maxS as real && (maxS > 0 ==> p.thetaW > 0.0)
  {
    HarmonicSumBounds(nSamps - 1);
    var a := HarmonicSum(nSamps - 1);
    var p := Calibrate(maxS, nSamps, maxLen, maskFraction, mu, upRTR).value;
    assert p.thetaW * a == maxS as real;
    assert a >= 1.0;
    assert p.thetaW == (maxS as real) / a;
    assert p.thetaW >= 0.0;
    assert p.thetaW * (a - 1.0) >= 0.0;
  }

  /** For a plausible input (some segregating sites, two or more samples, a
      positive mutation rate, a partly accessible window of positive length)
      calibration succeeds and every prior is positive. */
  lemma PriorsPositive(maxS: int, nSamps: int, maxLen: int, maskFraction: real, mu: real, upRTR: real)
    requires maxS > 0 && nSamps >= 2 && maxLen > 0
    requires mu > 0.0 && 0.0 <= maskFraction < 1.0 && upRTR > 0.0
    ensures Calibrate(maxS, nSamps, maxLen, maskFraction, mu, upRTR).Ok?
    ensures var p := Calibrate(maxS, nSamps, maxLen, maskFraction, mu, upRTR).value;
      p.thetaW > 0.0 && p.ne > 0.0 && p.rhoHigh > 0.0 && 0.0 < p.muLow < p.muHigh
  {
    var p := Calibrate(maxS, nSamps, maxLen, maskFraction, mu, upRTR).value;
    ThetaWBounds(maxS, nSamps, maxLen, maskFraction, mu, upRTR);
    var d := NeDenominator(mu, maskFraction, maxLen);
    assert (1.0 - maskFraction) * (maxLen as real) > 0.0;
    assert d > 0.0;
    assert p.ne * d == p.thetaW;
  }
}

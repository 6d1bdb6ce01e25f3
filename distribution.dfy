/** The job-size distribution of src/main.rs: a closed set of variants whose
    only member is a two-phase hyperexponential. Random draws are inputs. */
module Distribution {
  import opened Options
  import opened Tolerance

  /** Hyperexp(lowMu, highMu, probLow): a mixture of two exponential phases. */
  datatype Dist = Hyperexp(lowMu: real, highMu: real, probLow: real)

  /** Expected value of an exponential phase with rate mu. */
  function PhaseMean(mu: real): (m: real)
    requires mu != 0.0
    ensures m * mu == 1.0
  {
    1.0 / mu
  }

  /** Expected value of the mixture that uses the low-rate phase with weight w
      and the high-rate phase with weight 1 - w. */
  function MixtureMean(d: Dist, w: real): real
    requires d.lowMu != 0.0 && d.highMu != 0.0
  {
    w * PhaseMean(d.lowMu) + (1.0 - w) * PhaseMean(d.highMu)
  }

  /** Dist::mean. A zero rate makes the f64 quotient infinite or NaN, which is
      None here; otherwise the mean weights the low-rate phase by probLow. */
  function Mean(d: Dist): (m: Option<real>)
    ensures m.None? <==> d.lowMu == 0.0 || d.highMu == 0.0
    ensures m.Some? ==> m.value == MixtureMean(d, d.probLow)
  {
    if d.lowMu == 0.0 || d.highMu == 0.0 then None
    else Some(d.probLow / d.lowMu + (1.0 - d.probLow) / d.highMu)
  }

  /** x clamped to [0, 1]: the length of the part of [0, 1) lying above or
      below a threshold at x. */
  function Clamp01(x: real): (c: real)
    ensures 0.0 <= c <= 1.0
    ensures 0.0 <= x <= 1.0 ==> c == x
    ensures x < 0.0 ==> c == 0.0
    ensures x > 1.0 ==> c == 1.0
  {
    if x < 0.0 then 0.0 else if x > 1.0 then 1.0 else x
  }

  /** Phase selection in Dist::sample, as written: the uniform draw u picks the
      low rate when it is strictly above probLow, the high rate otherwise. For
      a draw in [0, 1), the draws that pick the low rate lie in [c, 1) and
      include (c, 1), where c is probLow clamped to [0, 1]: a set of length
      1 - c. */
  function PhaseRate(d: Dist, u: real): (mu: real)
    ensures mu == d.lowMu || mu == d.highMu
    ensures d.lowMu != d.highMu ==> (mu == d.lowMu <==> d.probLow < u)
    ensures 0.0 <= u < 1.0 && Clamp01(d.probLow) < u ==> mu == d.lowMu
    ensures 0.0 <= u < 1.0 && u < Clamp01(d.probLow) ==> mu == d.highMu
  {
    if u > d.probLow then d.lowMu else d.highMu
  }

  /** The expected size the sampler draws: the low-rate phase is used on a
      set of draws of length 1 - Clamp01(probLow) (see PhaseRate). Both rates
      are positive: Exp::new(mu).unwrap() panics on any other rate, and then
      there is no size to draw. */
  function SamplerMean(d: Dist): real
    requires d.lowMu > 0.0 && d.highMu > 0.0
  {
    MixtureMean(d, 1.0 - Clamp01(d.probLow))
  }

  /** Two mixtures of the same phases differ by the difference of their
      weights times the difference of the phase means. */
  lemma MixtureMeanDifference(d: Dist, w: real, v: real)
    requires d.lowMu != 0.0 && d.highMu != 0.0
    ensures MixtureMean(d, w) == MixtureMean(d, v) <==> w == v || d.lowMu == d.highMu
  {
    var a, b := PhaseMean(d.lowMu), PhaseMean(d.highMu);
    var x, y := w - v, a - b;
    assert MixtureMean(d, w) - MixtureMean(d, v) == x * y;
    assert x * y == 0.0 <==> x == 0.0 || y == 0.0;
    if a == b {
      assert a * d.lowMu == 1.0 && b * d.highMu == 1.0;
      calc {
        d.lowMu;
        d.lowMu * (b * d.highMu);
        (a * d.lowMu) * d.highMu;
        d.highMu;
      }
    }
  }

  /** The mean the sampler actually produces agrees with Dist::mean exactly
      when probLow is one half or the two rates coincide. */
  lemma SamplerMeanAgreesIff(d: Dist)
    requires d.lowMu > 0.0 && d.highMu > 0.0
    ensures SamplerMean(d) == Mean(d).value <==> d.probLow == 0.5 || d.lowMu == d.highMu
  {
    MixtureMeanDifference(d, 1.0 - Clamp01(d.probLow), d.probLow);
  }

  /** The assertion |dist.mean() - 1| < EPSILON that opens simulate; a
      non-finite mean fails it. */
  predicate Normalized(d: Dist) {
    Mean(d).Some? && -EPSILON < Mean(d).value - 1.0 < EPSILON
  }

  /** A distribution that passes the normalisation guard of simulate (mean
      exactly 1) while the sampler draws sizes of mean 5/3, far from 1. */
  lemma NormalizedButSamplerMeanDiffers()
    ensures Normalized(Hyperexp(0.5, 1.5, 0.25))
    ensures SamplerMean(Hyperexp(0.5, 1.5, 0.25)) == 5.0 / 3.0
    ensures SamplerMean(Hyperexp(0.5, 1.5, 0.25)) - 1.0 >= EPSILON
  {
  }

  /** Phase selection as the mean formula evidently intends: the low rate for
      draws strictly below probLow. For a draw in [0, 1), those draws lie in
      [0, c) with c = Clamp01(probLow), a set of length c. */
  function IntendedPhaseRate(d: Dist, u: real): (mu: real)
    ensures mu == d.lowMu || mu == d.highMu
    ensures d.lowMu != d.highMu ==> (mu == d.lowMu <==> u < d.probLow)
    ensures 0.0 <= u < 1.0 && u < Clamp01(d.probLow) ==> mu == d.lowMu
    ensures 0.0 <= u < 1.0 && Clamp01(d.probLow) <= u ==> mu == d.highMu
  {
    if u < d.probLow then d.lowMu else d.highMu
  }

  /** The expected size the intended sampler draws: the low-rate phase is used
      on a set of draws of length Clamp01(probLow). Both rates are positive,
      as for SamplerMean. */
  function IntendedSamplerMean(d: Dist): real
    requires d.lowMu > 0.0 && d.highMu > 0.0
  {
    MixtureMean(d, Clamp01(d.probLow))
  }

  /** The intended sampler agrees with Dist::mean exactly when probLow is a
      probability or the two rates coincide. */
  lemma IntendedSamplerMeanAgreesIff(d: Dist)
    requires d.lowMu > 0.0 && d.highMu > 0.0
    ensures IntendedSamplerMean(d) == Mean(d).value <==> 0.0 <= d.probLow <= 1.0 || d.lowMu == d.highMu
  {
    MixtureMeanDifference(d, Clamp01(d.probLow), d.probLow);
  }

  /** With the intended selection, positive rates and probLow a probability,
      the sampler's mean is Dist::mean, so the guard of simulate does
      normalise the sizes it draws: they have mean within EPSILON of 1. */
  lemma IntendedSamplerKeepsNormalization(d: Dist)
    requires Normalized(d) && d.lowMu > 0.0 && d.highMu > 0.0 && 0.0 <= d.probLow <= 1.0
    ensures IntendedSamplerMean(d) == Mean(d).value
    ensures -EPSILON < IntendedSamplerMean(d) - 1.0 < EPSILON
  {
    IntendedSamplerMeanAgreesIff(d);
  }
}

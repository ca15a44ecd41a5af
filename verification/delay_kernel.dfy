/**
 * The delay kernel of scripts/coronalib.py: `infection_profile` and the
 * kernel that `sim` precalculates. The gamma CDF (scipy's `gamma.cdf`) is
 * a parameter `cdf(x, shape, scale)`; the kernel is built from its samples
 * at the whole days 0..nday by first differences.
 */
module DelayKernel {
  import opened Sums
  import opened Results

  /** Number of past days `sim` convolves over (coronalib.py lines 101-104, 116). */
  const Window: nat := 28

  /** The gamma CDF, supplied from outside: (x, shape, scale) -> probability. */
  type Cdf = (real, real, real) -> real

  /** Python raises ZeroDivisionError when a moment is zero. */
  datatype DomainError = ZeroDeviation | ZeroMean

  datatype Gamma = Gamma(shape: real, scale: real)

  /** Moment matching: shape `p = gmean^2/gsd^2`, scale `b = gsd^2/gmean`;
      `p` is evaluated first, so a zero `gsd` is reported before a zero mean. */
  function MomentMatch(gmean: real, gsd: real): (r: Result<Gamma, DomainError>)
    ensures r.Ok? <==> gmean != 0.0 && gsd != 0.0
    ensures gsd == 0.0 ==> r == Err(ZeroDeviation)
    ensures r.Ok? ==> r.value.shape * r.value.scale == gmean
    ensures r.Ok? ==> r.value.shape * r.value.scale * r.value.scale == gsd * gsd
  {
    if gsd == 0.0 then Err(ZeroDeviation)
    else if gmean == 0.0 then Err(ZeroMean)
    else
      SquarePositive(gsd);
      var p := (gmean * gmean) / (gsd * gsd);
      var b := (gsd * gsd) / gmean;
      MomentIdentities(gmean, gsd, p, b);
      Ok(Gamma(p, b))
  }

  lemma MomentIdentities(gmean: real, gsd: real, p: real, b: real)
    requires gmean != 0.0 && gsd != 0.0
    requires gsd * gsd != 0.0
    requires p == (gmean * gmean) / (gsd * gsd) && b == (gsd * gsd) / gmean
    ensures p * b == gmean && p * b * b == gsd * gsd
  {
    var s2 := gsd * gsd;
    assert p * s2 == gmean * gmean;
    assert b * gmean == s2;
    assert (p * b) * gmean == p * s2;
    assert (p * b) * gmean == gmean * gmean;
    assert (p * b - gmean) * gmean == 0.0;
  }

  lemma SquarePositive(a: real)
    requires a != 0.0
    ensures a * a > 0.0
  {
    if a < 0.0 {
      assert a * a == (-a) * (-a);
    }
  }

  /** The CDF sampled at the whole days 0..nday (`x = np.linspace(0, nday, nday+1)`). */
  function Samples(cdf: Cdf, g: Gamma, nday: nat): (y: seq<real>)
    ensures |y| == nday + 1
    ensures forall k :: 0 <= k <= nday ==> y[k] == cdf(k as real, g.shape, g.scale)
  {
    seq(nday + 1, k requires 0 <= k <= nday => cdf(k as real, g.shape, g.scale))
  }

  predicate NonDecreasing(y: seq<real>)
  {
    forall k, l :: 0 <= k <= l < |y| ==> y[k] <= y[l]
  }

  /** The CDF is non-decreasing in its first argument. */
  ghost predicate MonotoneCdf(cdf: Cdf)
  {
    forall x1: real, x2: real, p: real, b: real {:trigger cdf(x1, p, b), cdf(x2, p, b)} ::
      x1 <= x2 ==> cdf(x1, p, b) <= cdf(x2, p, b)
  }

  datatype Profile = Profile(x: seq<int>, y: seq<real>, delay: seq<real>)

  /** First differences with a leading zero: delay[0] = 0, delay[k] = y[k] - y[k-1]. */
  function Differences(y: seq<real>): (d: seq<real>)
    requires |y| > 0
    ensures |d| == |y|
  {
    seq(|y|, k requires 0 <= k < |y| => if k == 0 then 0.0 else y[k] - y[k - 1])
  }

  /** `infection_profile(gmean, gsd, nday)`: the day grid, the CDF samples and
      the per-day probability mass. */
  function InfectionProfile(gmean: real, gsd: real, nday: nat, cdf: Cdf): (r: Result<Profile, DomainError>)
    ensures r.Ok? <==> gmean != 0.0 && gsd != 0.0
    ensures r.Ok? ==> |r.value.x| == |r.value.y| == |r.value.delay| == nday + 1
    ensures r.Ok? ==> forall k :: 0 <= k <= nday ==> r.value.x[k] == k
    ensures r.Ok? ==> r.value.y == Samples(cdf, MomentMatch(gmean, gsd).value, nday)
    ensures r.Ok? ==> r.value.delay == Differences(r.value.y)
  {
    match MomentMatch(gmean, gsd)
    case Err(e) => Err(e)
    case Ok(g) =>
      var y := Samples(cdf, g, nday);
      Ok(Profile(seq(nday + 1, k requires 0 <= k <= nday => k), y, Differences(y)))
  }

  /** The mass telescopes: it sums to y[nday] - y[0]. */
  lemma {:induction false} DifferencesTelescope(y: seq<real>)
    requires |y| > 0
    ensures Sum(Differences(y)) == y[|y| - 1] - y[0]
  {
    if |y| > 1 {
      var y' := y[..|y| - 1];
      assert Differences(y)[..|y| - 1] == Differences(y');
      DifferencesTelescope(y');
    }
  }

  lemma DifferencesNonNegative(y: seq<real>)
    requires |y| > 0 && NonDecreasing(y)
    ensures forall k :: 0 <= k < |y| ==> Differences(y)[k] >= 0.0
  {
  }

  /** Mass of the profile: y[nday] - y[0], which is in [0, 1] when the CDF
      is a monotone probability; every entry is non-negative. */
  lemma ProfileMass(gmean: real, gsd: real, nday: nat, cdf: Cdf)
    requires gmean != 0.0 && gsd != 0.0
    ensures var p := InfectionProfile(gmean, gsd, nday, cdf).value;
      Sum(p.delay) == p.y[nday] - p.y[0]
    ensures var p := InfectionProfile(gmean, gsd, nday, cdf).value;
      MonotoneCdf(cdf) ==> forall k :: 0 <= k <= nday ==> p.delay[k] >= 0.0
    ensures var p := InfectionProfile(gmean, gsd, nday, cdf).value;
      MonotoneCdf(cdf) && (forall x, a, b :: 0.0 <= cdf(x, a, b) <= 1.0) ==> 0.0 <= Sum(p.delay) <= 1.0
  {
    var p := InfectionProfile(gmean, gsd, nday, cdf).value;
    DifferencesTelescope(p.y);
    if MonotoneCdf(cdf) {
      var g := MomentMatch(gmean, gsd).value;
      forall k, l | 0 <= k <= l < |p.y| ensures p.y[k] <= p.y[l] {
        assert p.y[k] == cdf(k as real, g.shape, g.scale);
        assert p.y[l] == cdf(l as real, g.shape, g.scale);
      }
      DifferencesNonNegative(p.y);
      if forall x, a, b :: 0.0 <= cdf(x, a, b) <= 1.0 {
        assert p.y[nday] == cdf(nday as real, g.shape, g.scale);
        assert p.y[0] == cdf(0 as real, g.shape, g.scale);
      }
    }
  }

  /** The kernel `sim` precalculates: `delay = y[1:29] - y[0:28]` stored
      reversed, so entry m weighs the infections of 28 - m days ago. */
  function SimKernel(y: seq<real>): (kernel: seq<real>)
    requires |y| == Window + 1
    ensures |kernel| == Window
  {
    seq(Window, m requires 0 <= m < Window => y[Window - m] - y[Window - 1 - m])
  }

  /** The sim kernel is `infection_profile`'s delay over 28 days with the
      leading zero dropped, read back to front. */
  lemma SimKernelIsReversedProfile(y: seq<real>)
    requires |y| == Window + 1
    ensures forall m :: 0 <= m < Window ==> SimKernel(y)[m] == Differences(y)[Window - m]
  {
  }

  /** `np.sum(h * w)` for two vectors of the same length. */
  function Dot(h: seq<int>, w: seq<real>): real
    requires |h| == |w|
  {
    if |h| == 0 then 0.0 else (h[0] as real) * w[0] + Dot(h[1..], w[1..])
  }

  /** Expected new infections on day i (coronalib.py lines 116-118):
      the last min(i, 28) daily infection counts against the tail of the
      reversed kernel. */
  function NewInfections(infections: seq<int>, i: nat, kernel: seq<real>): real
    requires i <= |infections| && |kernel| == Window
  {
    var lo := if i >= Window then i - Window else 0;
    Dot(infections[lo..i], kernel[Window - (i - lo)..])
  }

  /** The convolution written with lags: sum over d = 1..lags of
      infections[i - d] * (F(d) - F(d - 1)). */
  function LagSum(infections: seq<int>, i: nat, y: seq<real>, lags: nat): real
    requires lags <= i <= |infections| && lags < |y|
  {
    if lags == 0 then 0.0
    else (infections[i - lags] as real) * (y[lags] - y[lags - 1]) + LagSum(infections, i, y, lags - 1)
  }

  lemma {:induction false} DotIsLagSum(infections: seq<int>, i: nat, y: seq<real>, lags: nat)
    requires |y| == Window + 1 && lags <= Window && lags <= i <= |infections|
    ensures Dot(infections[i - lags..i], SimKernel(y)[Window - lags..]) == LagSum(infections, i, y, lags)
  {
    if lags > 0 {
      var h := infections[i - lags..i];
      var w := SimKernel(y)[Window - lags..];
      assert h[1..] == infections[i - (lags - 1)..i];
      assert w[1..] == SimKernel(y)[Window - (lags - 1)..];
      assert w[0] == y[lags] - y[lags - 1];
      DotIsLagSum(infections, i, y, lags - 1);
    }
  }

  /** The convolution identity: what `sim` computes from the reversed kernel
      is the lag-weighted sum of the past min(i, 28) days' infections. */
  lemma ConvolutionIdentity(infections: seq<int>, i: nat, y: seq<real>)
    requires |y| == Window + 1 && i <= |infections|
    ensures NewInfections(infections, i, SimKernel(y))
         == LagSum(infections, i, y, if i < Window then i else Window)
  {
    DotIsLagSum(infections, i, y, if i < Window then i else Window);
  }

  lemma {:induction false} LagSumNonNegative(infections: seq<int>, i: nat, y: seq<real>, lags: nat)
    requires lags <= i <= |infections| && lags < |y|
    requires forall d :: 0 <= d < |infections| ==> infections[d] >= 0
    requires NonDecreasing(y)
    ensures LagSum(infections, i, y, lags) >= 0.0
  {
    if lags > 0 {
      LagSumNonNegative(infections, i, y, lags - 1);
      assert y[lags] - y[lags - 1] >= 0.0;
      assert (infections[i - lags] as real) >= 0.0;
    }
  }

  /** With non-negative counts and a non-decreasing CDF the expected number of
      new infections is non-negative. */
  lemma NewInfectionsNonNegative(infections: seq<int>, i: nat, y: seq<real>)
    requires |y| == Window + 1 && i <= |infections|
    requires forall d :: 0 <= d < |infections| ==> infections[d] >= 0
    requires NonDecreasing(y)
    ensures NewInfections(infections, i, SimKernel(y)) >= 0.0
  {
    ConvolutionIdentity(infections, i, y);
    LagSumNonNegative(infections, i, y, if i < Window then i else Window);
  }
}

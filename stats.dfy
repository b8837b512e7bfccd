/** Population statistics over a sample, and the normal-approximation
    confidence interval used to summarise repeated runs. */
module Stats {

  /** The floating-point values the harness can produce: a mean of an empty
      list is NaN, and the running best score of the grid search starts at +inf. */
  datatype Float = Finite(value: real) | PosInf | NaN {

    /** IEEE-754 `<`: false whenever either side is NaN, nothing is below -inf
        here, and +inf is below nothing. */
    predicate Less(other: Float) {
      match this
      case NaN => false
      case PosInf => false
      case Finite(x) => other.PosInf? || (other.Finite? && x < other.value)
    }
  }

  /** Python's `sum`: a left fold from 0. */
  function Sum(xs: seq<real>): real
  {
    if xs == [] then 0.0 else Sum(xs[..|xs| - 1]) + xs[|xs| - 1]
  }

  function Mean(xs: seq<real>): real
    requires xs != []
  {
    Sum(xs) / |xs| as real
  }

  /** The sum of the squared distances of the elements from `c`. */
  function SquaredDeviation(xs: seq<real>, c: real): (r: real)
    ensures 0.0 <= r
  {
    if xs == [] then 0.0
    else
      var d := xs[|xs| - 1] - c;
      SquaredDeviation(xs[..|xs| - 1], c) + d * d
  }

  /** Population variance (divides by N, not N - 1). */
  function Variance(xs: seq<real>): (v: real)
    requires xs != []
    ensures 0.0 <= v
  {
    SquaredDeviation(xs, Mean(xs)) / |xs| as real
  }

  /** The square root the harness takes from its numeric library: whatever
      function is used, it must give the non-negative root (the root of 0 is
      stated on its own, as the solver does not derive it from the square). */
  ghost predicate IsSqrt(sqrt: real -> real)
  {
    && sqrt(0.0) == 0.0
    && forall x :: 0.0 <= x ==> 0.0 <= sqrt(x) && sqrt(x) * sqrt(x) == x
  }

  datatype Summary = Summary(mean: real, std: real, variance: real)

  /** `calculate_stats`: all zeros for an empty sample, otherwise the
      population mean, standard deviation and variance. */
  function CalculateStats(data: seq<real>, sqrt: real -> real): (s: Summary)
    requires IsSqrt(sqrt)
    ensures data == [] ==> s == Summary(0.0, 0.0, 0.0)
    ensures data != [] ==> s.mean * |data| as real == Sum(data)
    ensures data != [] ==> s.variance * |data| as real == SquaredDeviation(data, s.mean)
    ensures 0.0 <= s.variance && 0.0 <= s.std && s.std * s.std == s.variance
  {
    if data == [] then Summary(0.0, 0.0, 0.0)
    else
      var v := Variance(data);
      Summary(Mean(data), sqrt(v), v)
  }

  /** `np.mean`: NaN on an empty list (numpy only warns), the mean otherwise. */
  function NpMean(data: seq<real>): (m: Float)
    ensures m.NaN? <==> data == []
    ensures m.Finite? <==> data != []
    ensures m.Finite? ==> m.value * |data| as real == Sum(data)
  {
    if data == [] then NaN else Finite(Mean(data))
  }

  /** The fixed normal quantile used whatever confidence level is asked for. */
  const Z: real := 1.96

  /** `confidence_interval`: (0, 0) below two samples, otherwise the mean
      plus and minus Z standard errors, the error being the population
      standard deviation over the square root of the sample count. */
  function ConfidenceInterval(data: seq<real>, sqrt: real -> real): (ci: (real, real))
    requires IsSqrt(sqrt)
    ensures |data| < 2 ==> ci == (0.0, 0.0)
    ensures |data| >= 2 ==> ci.0 <= Mean(data) <= ci.1
    ensures |data| >= 2 ==> ci.1 - Mean(data) == Mean(data) - ci.0
    ensures |data| >= 2 ==> (ci.1 - ci.0) * sqrt(|data| as real) == 2.0 * Z * sqrt(Variance(data))
  {
    var n := |data|;
    if n < 2 then (0.0, 0.0)
    else
      var m := Mean(data);
      var root := sqrt(n as real);
      assert 0.0 < root;
      var stdErr := sqrt(Variance(data)) / root;
      assert 0.0 <= stdErr;
      (m - Z * stdErr, m + Z * stdErr)
  }

  /** `n` copies of `x`: the sample a run repeated with one seed produces. */
  function Repeat(x: real, n: nat): (r: seq<real>)
    ensures |r| == n
  {
    seq(n, _ => x)
  }

  lemma RepeatSnoc(x: real, n: nat)
    ensures Repeat(x, n + 1) == Repeat(x, n) + [x]
  {
  }

  lemma {:induction false} SumRepeat(x: real, n: nat)
    ensures Sum(Repeat(x, n)) == n as real * x
  {
    if n > 0 {
      assert Repeat(x, n)[..n - 1] == Repeat(x, n - 1);
      SumRepeat(x, n - 1);
    }
  }

  lemma {:induction false} DeviationRepeat(x: real, n: nat)
    ensures SquaredDeviation(Repeat(x, n), x) == 0.0
  {
    if n > 0 {
      assert Repeat(x, n)[..n - 1] == Repeat(x, n - 1);
      DeviationRepeat(x, n - 1);
    }
  }

  /** A sample whose values are all equal has that value as its mean and no
      spread, so its confidence interval collapses to a single point. */
  lemma ConstantSample(x: real, n: nat, sqrt: real -> real)
    requires IsSqrt(sqrt)
    requires 0 < n
    ensures Mean(Repeat(x, n)) == x && Variance(Repeat(x, n)) == 0.0
    ensures CalculateStats(Repeat(x, n), sqrt) == Summary(x, 0.0, 0.0)
    ensures NpMean(Repeat(x, n)) == Finite(x)
    ensures 2 <= n ==> ConfidenceInterval(Repeat(x, n), sqrt) == (x, x)
  {
    var xs := Repeat(x, n);
    SumRepeat(x, n);
    assert Mean(xs) == x;
    DeviationRepeat(x, n);
    assert Variance(xs) == 0.0;
  }
}

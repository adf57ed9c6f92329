/**
 * Signal statistics (Src/dsp_stat.c): the mean and the sample variance are
 * accumulate-then-divide loops over the first len samples; the standard
 * deviation is sqrt of a variance passed in.
 */
module Stat {
  import opened DspCommon

  /** The sum of squared deviations from mu: the variance loop's accumulator. */
  function SquaredDeviations(s: seq<real>, mu: real): real
  {
    if |s| == 0 then 0.0 else SquaredDeviations(s[..|s| - 1], mu) + Pow2(s[|s| - 1] - mu)
  }

  /**
   * dsp_sig_mean: the sum of the first len samples divided by len. The
   * division is by len, so len = 0 is excluded. The signal is only read.
   */
  method SigMean(sig: array<real>, len: nat) returns (mean: real)
    requires 0 < len <= sig.Length
    ensures mean == Sum(sig[..len]) / len as real
  {
    mean := 0.0;
    var i: nat := 0;
    while i < len
      invariant i <= len
      invariant mean == Sum(sig[..i])
    {
      assert sig[..i + 1][..i] == sig[..i];
      mean := mean + sig[i];
      i := i + 1;
    }
    mean := mean / len as real;
  }

  /**
   * dsp_sig_variance: the squared deviations of the first len samples from
   * the mean passed in, divided by len - 1. The divisor is unsigned, so
   * len = 1 would divide by zero and len = 0 would wrap; len >= 2 is
   * required. The result is never negative.
   */
  method SigVariance(sig: array<real>, sigMean: real, len: nat) returns (variance: real)
    requires 2 <= len <= sig.Length
    ensures variance == SquaredDeviations(sig[..len], sigMean) / (len - 1) as real
    ensures variance >= 0.0
  {
    variance := 0.0;
    var i: nat := 0;
    while i < len
      invariant i <= len
      invariant variance == SquaredDeviations(sig[..i], sigMean)
    {
      assert sig[..i + 1][..i] == sig[..i];
      variance := variance + Pow2(sig[i] - sigMean);
      i := i + 1;
    }
    SquaredDeviationsNonNegative(sig[..len], sigMean);
    variance := variance / (len - 1) as real;
  }

  /**
   * dsp_sig_std_dev: sqrt of the variance it is given, nothing else. Where
   * sqrt is a square root of that variance, squaring the result gives the
   * variance back.
   */
  function SigStdDev(m: MathLib, sigVariance: real): (sd: real)
    ensures m.sqrt(sigVariance) * m.sqrt(sigVariance) == sigVariance ==> sd * sd == sigVariance
  {
    m.sqrt(sigVariance)
  }

  /** A sum of squares is never negative. */
  lemma {:induction false} SquaredDeviationsNonNegative(s: seq<real>, mu: real)
    ensures SquaredDeviations(s, mu) >= 0.0
  {
    if |s| > 0 {
      SquaredDeviationsNonNegative(s[..|s| - 1], mu);
      var d := s[|s| - 1] - mu;
      if d < 0.0 {
        assert Pow2(d) == (-d) * (-d);
      }
    }
  }

  /** Summing n copies of c gives n * c. */
  lemma {:induction false} SumConstant(s: seq<real>, c: real)
    requires forall i :: 0 <= i < |s| ==> s[i] == c
    ensures Sum(s) == |s| as real * c
  {
    if |s| > 0 {
      SumConstant(s[..|s| - 1], c);
    }
  }

  /** The mean of a constant signal is that constant. */
  lemma MeanOfConstant(s: seq<real>, c: real)
    requires |s| > 0
    requires forall i :: 0 <= i < |s| ==> s[i] == c
    ensures Sum(s) / |s| as real == c
  {
    SumConstant(s, c);
  }

  /** A constant signal deviates nowhere from itself. */
  lemma {:induction false} NoDeviation(s: seq<real>, c: real)
    requires forall i :: 0 <= i < |s| ==> s[i] == c
    ensures SquaredDeviations(s, c) == 0.0
  {
    if |s| > 0 {
      NoDeviation(s[..|s| - 1], c);
    }
  }

  /** The variance of a constant signal taken about its own mean is 0. */
  lemma VarianceOfConstant(s: seq<real>, c: real)
    requires |s| >= 2
    requires forall i :: 0 <= i < |s| ==> s[i] == c
    ensures SquaredDeviations(s, Sum(s) / |s| as real) / (|s| - 1) as real == 0.0
  {
    MeanOfConstant(s, c);
    NoDeviation(s, c);
  }

  /**
   * Chaining the three routines on a constant signal gives standard
   * deviation sqrt(0), which is 0 for any sqrt with sqrt(0) = 0.
   */
  lemma StdDevOfConstant(m: MathLib, s: seq<real>, c: real)
    requires |s| >= 2 && m.sqrt(0.0) == 0.0
    requires forall i :: 0 <= i < |s| ==> s[i] == c
    ensures SigStdDev(m, SquaredDeviations(s, Sum(s) / |s| as real) / (|s| - 1) as real) == 0.0
  {
    VarianceOfConstant(s, c);
  }
}

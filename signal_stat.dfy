/**
 * The older copy of the statistics routines (src/signal_stat.c). Apart from
 * the names of the routines and of the value and length types (sig_val_t,
 * sig_len_t, modelled as real and nat like their dsp_ counterparts), its
 * loops are line for line those of Src/dsp_stat.c, so each routine here
 * runs the Stat one and carries the same contract.
 */
module SignalStat {
  import opened DspCommon
  import Stat

  /** signal_mean: the sum of the first len samples divided by len; len = 0 is excluded. */
  method SignalMean(sig: array<real>, len: nat) returns (mean: real)
    requires 0 < len <= sig.Length
    ensures mean == Sum(sig[..len]) / len as real
  {
    mean := Stat.SigMean(sig, len);
  }

  /**
   * signal_variance: squared deviations from the given mean divided by the
   * unsigned len - 1, so len >= 2 is required; never negative.
   */
  method SignalVariance(sig: array<real>, sigMean: real, len: nat) returns (variance: real)
    requires 2 <= len <= sig.Length
    ensures variance == Stat.SquaredDeviations(sig[..len], sigMean) / (len - 1) as real
    ensures variance >= 0.0
  {
    variance := Stat.SigVariance(sig, sigMean, len);
  }

  /** signal_std_dev: sqrt of the variance it is given, squaring back to it. */
  function SignalStdDev(m: MathLib, sigVariance: real): (sd: real)
    ensures m.sqrt(sigVariance) * m.sqrt(sigVariance) == sigVariance ==> sd * sd == sigVariance
  {
    Stat.SigStdDev(m, sigVariance)
  }
}

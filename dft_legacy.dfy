/**
 * The older real DFT and inverse DFT (src/dsp_dft.c). The forward transform
 * zero-fills its outputs itself; the inverse rescales the caller's
 * coefficient arrays in place and then synthesises from n bins.
 */
module DftLegacy {
  import opened DspCommon
  import opened Fourier
  import Current = Dft

  /**
   * dsp_dft (older). All n/2 bins of both outputs are zeroed, then bin
   * k < n/2 accumulates the cosine and the negated sine correlation of the
   * n samples. Nothing at or above n/2 is written.
   */
  method Dft(m: MathLib, x: array<real>, rex: array<real>, imx: array<real>, n: nat)
    requires n <= x.Length && n / 2 <= rex.Length && n / 2 <= imx.Length
    requires rex != imx && x != rex && x != imx
    modifies rex, imx
    ensures forall k :: 0 <= k < n / 2 ==> rex[k] == CosSum(m, x[..n], k, n, n)
    ensures forall k :: 0 <= k < n / 2 ==> imx[k] == NegSinSum(m, x[..n], k, n, n)
    ensures forall k :: n / 2 <= k < rex.Length ==> rex[k] == old(rex[k])
    ensures forall k :: n / 2 <= k < imx.Length ==> imx[k] == old(imx[k])
  {
    var j: nat := 0;
    while j < n / 2
      invariant j <= n / 2
      invariant forall t :: 0 <= t < j ==> rex[t] == 0.0 && imx[t] == 0.0
      invariant forall t :: n / 2 <= t < rex.Length ==> rex[t] == old(rex[t])
      invariant forall t :: n / 2 <= t < imx.Length ==> imx[t] == old(imx[t])
    {
      imx[j] := 0.0;
      rex[j] := imx[j];
      j := j + 1;
    }
    ghost var xs := x[..n];
    var k: nat := 0;
    while k < n / 2
      invariant k <= n / 2
      invariant forall t :: 0 <= t < k ==> rex[t] == CosSum(m, xs, t, n, n)
      invariant forall t :: 0 <= t < k ==> imx[t] == NegSinSum(m, xs, t, n, n)
      invariant forall t :: k <= t < n / 2 ==> rex[t] == 0.0 && imx[t] == 0.0
      invariant forall t :: n / 2 <= t < rex.Length ==> rex[t] == old(rex[t])
      invariant forall t :: n / 2 <= t < imx.Length ==> imx[t] == old(imx[t])
    {
      CorrelateBin(m, x, rex, imx, k, n);
      k := k + 1;
    }
    assert x[..n] == xs;
  }

  /**
   * The in-place rescaling of Re X: bin 0 is halved, bins 1 <= k < n/2 are
   * divided by n/2 (real division), every other entry is left alone.
   */
  function RescaledRe(s: seq<real>, n: nat): (r: seq<real>)
    requires |s| >= 1
    ensures |r| == |s| && r[0] * 2.0 == s[0]
    ensures forall k :: 1 <= k < |s| && k < n / 2 ==> r[k] * (n as real / 2.0) == s[k]
    ensures forall k :: 1 <= k < |s| && n / 2 <= k ==> r[k] == s[k]
  {
    seq(|s|, k requires 0 <= k < |s| =>
      if k == 0 then s[0] / 2.0
      else if k < n / 2 then s[k] / (n as real / 2.0)
      else s[k])
  }

  /** The in-place rescaling of Im X: bin 0 divided by -2, bins 1 <= k < n/2 by -n/2. */
  function RescaledIm(s: seq<real>, n: nat): (r: seq<real>)
    requires |s| >= 1
    ensures |r| == |s| && r[0] * -2.0 == s[0]
    ensures forall k :: 1 <= k < |s| && k < n / 2 ==> r[k] * -(n as real / 2.0) == s[k]
    ensures forall k :: 1 <= k < |s| && n / 2 <= k ==> r[k] == s[k]
  {
    seq(|s|, k requires 0 <= k < |s| =>
      if k == 0 then s[0] / -2.0
      else if k < n / 2 then s[k] / (-1.0 * (n as real / 2.0))
      else s[k])
  }

  /**
   * The first phase of dsp_idft: the coefficient arrays are rescaled in
   * place, bin 0 unconditionally and bins 1 <= k < n/2 by n/2.
   */
  method PrepareCoefficients(rex: array<real>, imx: array<real>, n: nat)
    requires 1 <= rex.Length && 1 <= imx.Length && n / 2 <= rex.Length && n / 2 <= imx.Length
    requires rex != imx
    modifies rex, imx
    ensures rex[..] == RescaledRe(old(rex[..]), n)
    ensures imx[..] == RescaledIm(old(imx[..]), n)
  {
    ghost var r0, i0 := rex[..], imx[..];
    rex[0] := rex[0] / 2.0;
    imx[0] := imx[0] / -2.0;
    var k: nat := 1;
    while k < n / 2
      invariant 1 <= k && (k <= n / 2 || k == 1)
      invariant rex.Length == |r0| && imx.Length == |i0|
      invariant forall t :: 0 <= t < k ==> rex[t] == RescaledRe(r0, n)[t]
      invariant forall t :: 0 <= t < k ==> imx[t] == RescaledIm(i0, n)[t]
      invariant forall t :: k <= t < rex.Length ==> rex[t] == r0[t]
      invariant forall t :: k <= t < imx.Length ==> imx[t] == i0[t]
    {
      rex[k] := rex[k] / (n as real / 2.0);
      imx[k] := imx[k] / (-1.0 * (n as real / 2.0));
      k := k + 1;
    }
    assert rex[..] == RescaledRe(r0, n);
    assert imx[..] == RescaledIm(i0, n);
  }

  /**
   * The buffers dsp_idft (older) needs: bin 0 of both coefficient arrays is
   * rescaled whatever n is, and the synthesis reads both arrays at every
   * index below n.
   */
  predicate CoefficientsCover(rex: array<real>, imx: array<real>, n: nat)
  {
    1 <= rex.Length && n <= rex.Length && 1 <= imx.Length && n <= imx.Length
  }

  /**
   * The second phase of dsp_idft (older): the n output samples are zeroed and
   * sample i then receives re[k] * cos + im[k] * sin for every k < n. The
   * coefficient arrays are only read.
   */
  method SynthesiseAll(m: MathLib, dest: array<real>, rex: array<real>, imx: array<real>, n: nat)
    requires n <= rex.Length && n <= imx.Length && n <= dest.Length
    requires dest != rex && dest != imx
    modifies dest
    ensures forall i :: 0 <= i < n ==> dest[i] == Synthesis(m, rex[..n], imx[..n], i, n, n)
    ensures forall i :: n <= i < dest.Length ==> dest[i] == old(dest[i])
  {
    ghost var re, im := rex[..n], imx[..n];
    ZeroFill(dest, n);
    var k: nat := 0;
    while k < n
      modifies dest
      invariant k <= n
      invariant forall t :: 0 <= t < n ==> dest[t] == Synthesis(m, re, im, t, n, k)
      invariant forall t :: n <= t < dest.Length ==> dest[t] == old(dest[t])
    {
      assert rex[k] == re[k] && imx[k] == im[k];
      SynthesiseBin(m, dest, re, im, rex[k], imx[k], k, n);
      k := k + 1;
    }
    assert rex[..n] == re && imx[..n] == im;
  }

  /**
   * dsp_idft (older). The caller's coefficient arrays are rescaled in place
   * (bin 0 even when n = 0), the n output samples are zeroed, and sample i
   * receives re[k] * cos + im[k] * sin for EVERY k < n, so both coefficient
   * arrays are read at n indices.
   */
  method Idft(m: MathLib, dest: array<real>, rex: array<real>, imx: array<real>, n: nat)
    requires CoefficientsCover(rex, imx, n)
    requires n <= dest.Length
    requires dest != rex && dest != imx && rex != imx
    modifies dest, rex, imx
    ensures rex[..] == RescaledRe(old(rex[..]), n)
    ensures imx[..] == RescaledIm(old(imx[..]), n)
    ensures forall i :: 0 <= i < n ==> dest[i] == Synthesis(m, rex[..n], imx[..n], i, n, n)
    ensures forall i :: n <= i < dest.Length ==> dest[i] == old(dest[i])
  {
    PrepareCoefficients(rex, imx, n);
    SynthesiseAll(m, dest, rex, imx, n);
  }

  /**
   * The rescaling is not idempotent: a second call on the same buffers
   * divides bin 0 again, so Re X[0] ends up quartered.
   */
  lemma RescaleNotIdempotent(s: seq<real>, n: nat)
    requires |s| >= 1 && s[0] != 0.0
    ensures RescaledRe(RescaledRe(s, n), n)[0] == s[0] / 4.0
    ensures RescaledRe(RescaledRe(s, n), n) != RescaledRe(s, n)
  {
    assert RescaledRe(RescaledRe(s, n), n)[0] != RescaledRe(s, n)[0];
  }

  /**
   * The harness (test/src/main.c:156-160, 185) allocates n/2 coefficients
   * and calls dsp_idft with n: for every n >= 1 such buffers do not cover
   * what Idft reads, so the synthesis loop reads past their end.
   */
  lemma HarnessBuffersTooShort(rex: array<real>, imx: array<real>, n: nat)
    requires n >= 1 && rex.Length == n / 2 && imx.Length == n / 2
    ensures !CoefficientsCover(rex, imx, n)
  {
  }

  /**
   * The DC divisor. The rescaling halves Re X[0], where the inverse
   * transform needs it divided by n (as Dft.ScaledRe does); the two agree on
   * every other bin below n/2 and on bin 0 only when n = 2 or Re X[0] = 0.
   */
  lemma DcDivisorDiffers(s: seq<real>, n: nat)
    requires |s| >= 1 && n > 0 && n / 2 <= |s|
    ensures forall k :: 1 <= k < n / 2 ==> RescaledRe(s, n)[k] == Current.ScaledRe(s[..n / 2], n)[k]
    ensures n / 2 >= 1 ==> (RescaledRe(s, n)[0] == Current.ScaledRe(s[..n / 2], n)[0] <==> n == 2 || s[0] == 0.0)
  {
    if n / 2 >= 1 && s[0] != 0.0 && n != 2 {
      assert s[0] / 2.0 != s[0] / n as real;
    }
  }

  /** A concrete instance: n = 8 and Re X[0] = 8 give 4 where 1 was intended. */
  lemma DcDivisorExample()
    ensures RescaledRe([8.0, 0.0, 0.0, 0.0], 8)[0] == 4.0
    ensures Current.ScaledRe([8.0, 0.0, 0.0, 0.0], 8)[0] == 1.0
  {
  }
}

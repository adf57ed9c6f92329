/**
 * The sums both generations of the real DFT accumulate (Src/dsp_dft.c and
 * src/dsp_dft.c). Each is written as the loop builds it: one term per
 * iteration of the inner loop, in loop order.
 */
module Fourier {
  import opened DspCommon

  /** One term of the cosine correlation: v * cos(2*pi*k*i/n). */
  function CosTerm(m: MathLib, v: real, k: nat, i: nat, n: nat): real
    requires n > 0
  {
    v * m.cos(Angle(k, i, n))
  }

  /** One term of the sine correlation: v * sin(2*pi*k*i/n). */
  function SinTerm(m: MathLib, v: real, k: nat, i: nat, n: nat): real
    requires n > 0
  {
    v * m.sin(Angle(k, i, n))
  }

  /** Sum over i < upto of x[i] * cos(2*pi*k*i/n): what the forward loop adds into Re X[k]. */
  function CosSum(m: MathLib, x: seq<real>, k: nat, n: nat, upto: nat): real
    requires n > 0 && upto <= |x|
  {
    if upto == 0 then 0.0
    else CosSum(m, x, k, n, upto - 1) + CosTerm(m, x[upto - 1], k, upto - 1, n)
  }

  /** The forward loop's `-=` of x[i] * sin(2*pi*k*i/n) into Im X[k], for i < upto. */
  function NegSinSum(m: MathLib, x: seq<real>, k: nat, n: nat, upto: nat): real
    requires n > 0 && upto <= |x|
  {
    if upto == 0 then 0.0
    else NegSinSum(m, x, k, n, upto - 1) - SinTerm(m, x[upto - 1], k, upto - 1, n)
  }

  /**
   * Sample i of the inverse transform after bins k < upto have been added:
   * each bin adds re[k] * cos(2*pi*k*i/n), then im[k] * sin(2*pi*k*i/n).
   */
  function Synthesis(m: MathLib, re: seq<real>, im: seq<real>, i: nat, n: nat, upto: nat): real
    requires n > 0 && upto <= |re| && upto <= |im|
  {
    if upto == 0 then 0.0
    else Synthesis(m, re, im, i, n, upto - 1)
         + CosTerm(m, re[upto - 1], upto - 1, i, n)
         + SinTerm(m, im[upto - 1], upto - 1, i, n)
  }

  /**
   * Bin 0 (DC): with cos 0 = 1 and sin 0 = 0 the real part is the plain sum
   * of the samples and the imaginary part is zero.
   */
  lemma {:induction false} DcBin(m: MathLib, x: seq<real>, n: nat, upto: nat)
    requires Sane(m) && n > 0 && upto <= |x|
    ensures CosSum(m, x, 0, n, upto) == Sum(x[..upto])
    ensures NegSinSum(m, x, 0, n, upto) == 0.0
  {
    if upto > 0 {
      DcBin(m, x, n, upto - 1);
      assert Angle(0, upto - 1, n) == 0.0;
      assert x[..upto][..upto - 1] == x[..upto - 1];
    }
  }

  /**
   * Sample 0 of the inverse transform: every basis wave starts at cos 0 = 1,
   * sin 0 = 0, so sample 0 is the sum of the real coefficients.
   */
  lemma {:induction false} SynthesisAtZero(m: MathLib, re: seq<real>, im: seq<real>, n: nat, upto: nat)
    requires Sane(m) && n > 0 && upto <= |re| && upto <= |im|
    ensures Synthesis(m, re, im, 0, n, upto) == Sum(re[..upto])
  {
    if upto > 0 {
      SynthesisAtZero(m, re, im, n, upto - 1);
      assert Angle(upto - 1, 0, n) == 0.0;
      assert re[..upto][..upto - 1] == re[..upto - 1];
    }
  }

  /**
   * The inner loop of both forward transforms for one bin k: for i < n,
   * Re X[k] += x[i] * cos(2*pi*k*i/n) and Im X[k] -= x[i] * sin(2*pi*k*i/n).
   * Only cell k of each output changes.
   */
  method CorrelateBin(m: MathLib, x: array<real>, rex: array<real>, imx: array<real>, k: nat, n: nat)
    requires 0 < n <= x.Length && k < rex.Length && k < imx.Length
    requires rex != imx && x != rex && x != imx
    modifies rex, imx
    ensures rex[k] == old(rex[k]) + CosSum(m, x[..n], k, n, n)
    ensures imx[k] == old(imx[k]) + NegSinSum(m, x[..n], k, n, n)
    ensures forall j :: 0 <= j < rex.Length && j != k ==> rex[j] == old(rex[j])
    ensures forall j :: 0 <= j < imx.Length && j != k ==> imx[j] == old(imx[j])
  {
    ghost var xs := x[..n];
    var i: nat := 0;
    while i < n
      invariant i <= n
      invariant rex[k] == old(rex[k]) + CosSum(m, xs, k, n, i)
      invariant imx[k] == old(imx[k]) + NegSinSum(m, xs, k, n, i)
      invariant forall j :: 0 <= j < rex.Length && j != k ==> rex[j] == old(rex[j])
      invariant forall j :: 0 <= j < imx.Length && j != k ==> imx[j] == old(imx[j])
    {
      assert x[i] == xs[i];
      rex[k] := rex[k] + CosTerm(m, x[i], k, i, n);
      imx[k] := imx[k] - SinTerm(m, x[i], k, i, n);
      i := i + 1;
    }
  }

  /**
   * The inner loop of both inverse transforms for one bin k whose scaled
   * coefficients re[k] and im[k] the caller holds in rv and iv: every sample
   * i < n gains rv * cos(2*pi*k*i/n) and then iv * sin(2*pi*k*i/n), taking
   * the running synthesis from bins k' < k to bins k' <= k. Samples at or
   * above n are untouched.
   */
  method SynthesiseBin(m: MathLib, dest: array<real>, ghost re: seq<real>, ghost im: seq<real>,
                       rv: real, iv: real, k: nat, n: nat)
    requires 0 < n <= dest.Length && k < |re| && k < |im| && rv == re[k] && iv == im[k]
    requires forall t :: 0 <= t < n ==> dest[t] == Synthesis(m, re, im, t, n, k)
    modifies dest
    ensures forall t :: 0 <= t < n ==> dest[t] == Synthesis(m, re, im, t, n, k + 1)
    ensures forall t :: n <= t < dest.Length ==> dest[t] == old(dest[t])
  {
    ghost var d0 := dest[..];
    var i: nat := 0;
    while i < n
      invariant i <= n
      invariant forall t :: 0 <= t < i ==> dest[t] == Synthesis(m, re, im, t, n, k + 1)
      invariant forall t :: i <= t < dest.Length ==> dest[t] == d0[t]
    {
      assert dest[i] == d0[i] == Synthesis(m, re, im, i, n, k);
      dest[i] := dest[i] + CosTerm(m, rv, k, i, n);
      dest[i] := dest[i] + SinTerm(m, iv, k, i, n);
      i := i + 1;
    }
  }
}

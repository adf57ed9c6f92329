/**
 * The complex DFT (Src/dsp_cdft.c). As written, its loop guard is a comma
 * expression whose value is the 0 it assigns to the outputs, so a call only
 * zeroes bin 0. The per-(k, i) update of the loop body is modelled as the
 * function Step, and a transform that runs the loop as evidently intended,
 * with the imaginary update corrected, as CdftCorrected.
 */
module Cdft {
  import opened DspCommon

  /** One complex frequency bin: real and imaginary part. */
  datatype Bin = Bin(re: real, im: real)

  /**
   * One iteration of the inner loop as written, for input sample i of bin k:
   * SR = cos(2*pi*k*i/n), SI = -sin(2*pi*k*i/n), the real part gains
   * xr * SR - xi * SI and the imaginary part gains xi * SI - xi * SR. The
   * imaginary part never sees xr, so a purely real sample leaves it where it
   * was.
   */
  function Step(m: MathLib, acc: Bin, xr: real, xi: real, k: nat, i: nat, n: nat): (r: Bin)
    requires n > 0
    ensures xi == 0.0 ==> r.im == acc.im
  {
    var sr := m.cos(Angle(k, i, n));
    var si := -m.sin(Angle(k, i, n));
    Bin(acc.re + (xr * sr - xi * si), acc.im + (xi * si - xi * sr))
  }

  /** Bin k after the inner loop as written has run over samples i < upto, from a zeroed bin. */
  function Accumulate(m: MathLib, re: seq<real>, im: seq<real>, k: nat, n: nat, upto: nat): Bin
    requires n > 0 && upto <= |re| && upto <= |im|
  {
    if upto == 0 then Bin(0.0, 0.0)
    else Step(m, Accumulate(m, re, im, k, n, upto - 1), re[upto - 1], im[upto - 1], k, upto - 1, n)
  }

  /**
   * Over a whole bin: two signals with the same imaginary part give the same
   * imaginary output, whatever their real parts.
   */
  lemma {:induction false} ImagIgnoresReal(m: MathLib, re1: seq<real>, re2: seq<real>, im: seq<real>,
                                           k: nat, n: nat, upto: nat)
    requires n > 0 && upto <= |re1| && upto <= |re2| && upto <= |im|
    ensures Accumulate(m, re1, im, k, n, upto).im == Accumulate(m, re2, im, k, n, upto).im
  {
    if upto > 0 {
      ImagIgnoresReal(m, re1, re2, im, k, n, upto - 1);
    }
  }

  /**
   * Bin 0 of the loop body as written: the real part is the plain sum of the
   * real input (no 1/N normalisation), the imaginary part is MINUS the sum of
   * the imaginary input.
   */
  lemma {:induction false} AccumulateDc(m: MathLib, re: seq<real>, im: seq<real>, n: nat, upto: nat)
    requires Sane(m) && n > 0 && upto <= |re| && upto <= |im|
    ensures Accumulate(m, re, im, 0, n, upto) == Bin(Sum(re[..upto]), -Sum(im[..upto]))
  {
    if upto > 0 {
      AccumulateDc(m, re, im, n, upto - 1);
      assert Angle(0, upto - 1, n) == 0.0;
      assert re[..upto][..upto - 1] == re[..upto - 1];
      assert im[..upto][..upto - 1] == im[..upto - 1];
    }
  }

  /**
   * The loop guard `k < n, imx[k] = rex[k] = 0`: the comparison is discarded,
   * both output cells at k are set to 0, and the guard's value is that 0.
   */
  method CommaGuard(reOut: array<real>, imOut: array<real>, k: nat) returns (value: real)
    requires k < reOut.Length && k < imOut.Length && reOut != imOut
    modifies reOut, imOut
    ensures value == 0.0
    ensures reOut[..] == old(reOut[..])[k := 0.0]
    ensures imOut[..] == old(imOut[..])[k := 0.0]
  {
    reOut[k] := 0.0;
    imOut[k] := reOut[k];
    value := imOut[k];
  }

  /**
   * dsp_cdft as written. The guard is evaluated once with k = 0; its value is
   * 0, so the loop body never runs, whatever n is (n = 0 included). The
   * only effect is Re X[0] = Im X[0] = 0; the inputs are not touched.
   */
  method Cdft(reIn: array<real>, imIn: array<real>, reOut: array<real>, imOut: array<real>, n: nat)
    requires 1 <= reOut.Length && 1 <= imOut.Length && reOut != imOut
    modifies reOut, imOut
    ensures reOut[0] == 0.0 && imOut[0] == 0.0
    ensures forall j :: 1 <= j < reOut.Length ==> reOut[j] == old(reOut[j])
    ensures forall j :: 1 <= j < imOut.Length ==> imOut[j] == old(imOut[j])
  {
    var k: nat := 0;
    var guard := CommaGuard(reOut, imOut, k);
    if guard != 0.0 {
      // the body, which would run Step for every input sample, is unreachable
      assert false;
    }
  }

  /**
   * The per-sample update the transform evidently intends: the complex
   * product (xr + j xi) * (SR + j SI), i.e. the real part gains
   * xr * SR - xi * SI and the imaginary part xr * SI + xi * SR.
   */
  function StepIntended(m: MathLib, acc: Bin, xr: real, xi: real, k: nat, i: nat, n: nat): Bin
    requires n > 0
  {
    var sr := m.cos(Angle(k, i, n));
    var si := -m.sin(Angle(k, i, n));
    Bin(acc.re + (xr * sr - xi * si), acc.im + (xr * si + xi * sr))
  }

  /** Bin k of the intended transform after samples i < upto. */
  function AccumulateIntended(m: MathLib, re: seq<real>, im: seq<real>, k: nat, n: nat, upto: nat): Bin
    requires n > 0 && upto <= |re| && upto <= |im|
  {
    if upto == 0 then Bin(0.0, 0.0)
    else StepIntended(m, AccumulateIntended(m, re, im, k, n, upto - 1), re[upto - 1], im[upto - 1], k, upto - 1, n)
  }

  /** The two updates agree on the real part; they differ only in the imaginary one. */
  lemma {:induction false} RealPartsAgree(m: MathLib, re: seq<real>, im: seq<real>, k: nat, n: nat, upto: nat)
    requires n > 0 && upto <= |re| && upto <= |im|
    ensures Accumulate(m, re, im, k, n, upto).re == AccumulateIntended(m, re, im, k, n, upto).re
  {
    if upto > 0 {
      RealPartsAgree(m, re, im, k, n, upto - 1);
    }
  }

  /** Bin 0 of the intended transform is the sum of the complex input samples. */
  lemma {:induction false} IntendedDc(m: MathLib, re: seq<real>, im: seq<real>, n: nat, upto: nat)
    requires Sane(m) && n > 0 && upto <= |re| && upto <= |im|
    ensures AccumulateIntended(m, re, im, 0, n, upto) == Bin(Sum(re[..upto]), Sum(im[..upto]))
  {
    if upto > 0 {
      IntendedDc(m, re, im, n, upto - 1);
      assert Angle(0, upto - 1, n) == 0.0;
      assert re[..upto][..upto - 1] == re[..upto - 1];
      assert im[..upto][..upto - 1] == im[..upto - 1];
    }
  }

  /**
   * A concrete witness for the imaginary update: the one-sample signal
   * 0 + 1j has DC bin 0 + 1j, but the update as written gives 0 - 1j.
   */
  lemma ImagUpdateFinding(m: MathLib)
    requires Sane(m)
    ensures Accumulate(m, [0.0], [1.0], 0, 1, 1) == Bin(0.0, -1.0)
    ensures AccumulateIntended(m, [0.0], [1.0], 0, 1, 1) == Bin(0.0, 1.0)
  {
    AccumulateDc(m, [0.0], [1.0], 1, 1);
    IntendedDc(m, [0.0], [1.0], 1, 1);
  }

  /**
   * The inner loop of the intended transform for bin k: output cell k
   * accumulates StepIntended over the n input samples; no other cell changes.
   */
  method CorrelateComplexBin(m: MathLib, reIn: array<real>, imIn: array<real>,
                             reOut: array<real>, imOut: array<real>, k: nat, n: nat)
    requires 0 < n <= reIn.Length && n <= imIn.Length && k < reOut.Length && k < imOut.Length
    requires reOut != imOut && reOut != reIn && reOut != imIn && imOut != reIn && imOut != imIn
    requires reOut[k] == 0.0 && imOut[k] == 0.0
    modifies reOut, imOut
    ensures Bin(reOut[k], imOut[k]) == AccumulateIntended(m, reIn[..n], imIn[..n], k, n, n)
    ensures forall j :: 0 <= j < reOut.Length && j != k ==> reOut[j] == old(reOut[j])
    ensures forall j :: 0 <= j < imOut.Length && j != k ==> imOut[j] == old(imOut[j])
  {
    ghost var rs, ims := reIn[..n], imIn[..n];
    var i: nat := 0;
    while i < n
      invariant i <= n
      invariant Bin(reOut[k], imOut[k]) == AccumulateIntended(m, rs, ims, k, n, i)
      invariant forall j :: 0 <= j < reOut.Length && j != k ==> reOut[j] == old(reOut[j])
      invariant forall j :: 0 <= j < imOut.Length && j != k ==> imOut[j] == old(imOut[j])
    {
      assert reIn[i] == rs[i] && imIn[i] == ims[i];
      var next := StepIntended(m, Bin(reOut[k], imOut[k]), reIn[i], imIn[i], k, i, n);
      reOut[k] := next.re;
      imOut[k] := next.im;
      i := i + 1;
    }
    assert reIn[..n] == rs && imIn[..n] == ims;
  }

  /**
   * dsp_cdft with the loop running as evidently intended: for every bin
   * k < n both output cells are zeroed and then accumulate the corrected
   * update over all n input samples. Cells at or above n are untouched.
   */
  method CdftCorrected(m: MathLib, reIn: array<real>, imIn: array<real>,
                       reOut: array<real>, imOut: array<real>, n: nat)
    requires n <= reIn.Length && n <= imIn.Length && n <= reOut.Length && n <= imOut.Length
    requires reOut != imOut && reOut != reIn && reOut != imIn && imOut != reIn && imOut != imIn
    modifies reOut, imOut
    ensures forall k :: 0 <= k < n ==> Bin(reOut[k], imOut[k]) == AccumulateIntended(m, reIn[..n], imIn[..n], k, n, n)
    ensures forall k :: n <= k < reOut.Length ==> reOut[k] == old(reOut[k])
    ensures forall k :: n <= k < imOut.Length ==> imOut[k] == old(imOut[k])
  {
    var k: nat := 0;
    while k < n
      invariant k <= n
      invariant forall j :: 0 <= j < k ==> Bin(reOut[j], imOut[j]) == AccumulateIntended(m, reIn[..n], imIn[..n], j, n, n)
      invariant forall j :: k <= j < reOut.Length ==> reOut[j] == old(reOut[j])
      invariant forall j :: k <= j < imOut.Length ==> imOut[j] == old(imOut[j])
    {
      reOut[k] := 0.0;
      imOut[k] := 0.0;
      CorrelateComplexBin(m, reIn, imIn, reOut, imOut, k, n);
      k := k + 1;
    }
  }
}

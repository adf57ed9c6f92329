/**
 * The current real DFT, inverse DFT, magnitude and rectangular-to-polar
 * conversion (Src/dsp_dft.c). Every routine writes caller-owned arrays; the
 * array arguments are `array<real>` and the lengths `nat`.
 */
module Dft {
  import opened DspCommon
  import opened Fourier

  /** pow(10, -20), the stand-in for a zero real part in dsp_rect2polar. */
  const Tiny: real := 0.00000000000000000001

  /**
   * dsp_dft. Only the k = 0 cells are zeroed (in the loop initialiser); every
   * bin k < n/2 then accumulates onto what the caller's buffer held, so the
   * result is the transform only when the caller passes zeroed buffers (the
   * harness uses calloc). Bins at or above n/2 are never written.
   */
  method Dft(m: MathLib, x: array<real>, rex: array<real>, imx: array<real>, n: nat)
    requires n <= x.Length
    requires 1 <= rex.Length && n / 2 <= rex.Length
    requires 1 <= imx.Length && n / 2 <= imx.Length
    requires rex != imx && x != rex && x != imx
    modifies rex, imx
    ensures forall k :: 0 <= k < n / 2 ==>
      rex[k] == (if k == 0 then 0.0 else old(rex[k])) + CosSum(m, x[..n], k, n, n)
    ensures forall k :: 0 <= k < n / 2 ==>
      imx[k] == (if k == 0 then 0.0 else old(imx[k])) + NegSinSum(m, x[..n], k, n, n)
    ensures forall k :: n / 2 <= k < rex.Length ==> rex[k] == (if k == 0 then 0.0 else old(rex[k]))
    ensures forall k :: n / 2 <= k < imx.Length ==> imx[k] == (if k == 0 then 0.0 else old(imx[k]))
  {
    var k: nat := 0;
    imx[k] := 0.0;
    rex[k] := imx[k];
    ghost var xs := x[..n];
    while k < n / 2
      invariant k <= n / 2 || k == 0
      invariant forall j :: 0 <= j < k ==>
        rex[j] == (if j == 0 then 0.0 else old(rex[j])) + CosSum(m, xs, j, n, n)
      invariant forall j :: 0 <= j < k ==>
        imx[j] == (if j == 0 then 0.0 else old(imx[j])) + NegSinSum(m, xs, j, n, n)
      invariant forall j :: k <= j < rex.Length ==> rex[j] == (if j == 0 then 0.0 else old(rex[j]))
      invariant forall j :: k <= j < imx.Length ==> imx[j] == (if j == 0 then 0.0 else old(imx[j]))
    {
      CorrelateBin(m, x, rex, imx, k, n);
      k := k + 1;
    }
    assert x[..n] == xs;
  }

  /**
   * The DC property of dsp_dft: Re X[0] is the sum
   * of the n samples and Im X[0] is zero.
   */
  lemma DftDcBin(m: MathLib, x: seq<real>, n: nat)
    requires Sane(m) && 2 <= n <= |x|
    ensures 0.0 + CosSum(m, x[..n], 0, n, n) == Sum(x[..n])
    ensures 0.0 + NegSinSum(m, x[..n], 0, n, n) == 0.0
  {
    DcBin(m, x[..n], n, n);
    assert x[..n][..n] == x[..n];
  }

  /**
   * The coefficients dsp_idft feeds into the synthesis: each Re X[k] is
   * divided by n/2 and each Im X[k] by -n/2 (real division), and bin 0 is
   * divided once more, by 2 and by -2. Bin 0 thus ends up divided by n.
   */
  function ScaledRe(s: seq<real>, n: nat): (r: seq<real>)
    requires n > 0
    ensures |r| == |s|
  {
    seq(|s|, k requires 0 <= k < |s| =>
      if k == 0 then s[k] / (n as real / 2.0) / 2.0 else s[k] / (n as real / 2.0))
  }

  /** The imaginary counterpart of ScaledRe; bin 0 again ends up divided by n. */
  function ScaledIm(s: seq<real>, n: nat): (r: seq<real>)
    requires n > 0
    ensures |r| == |s|
  {
    seq(|s|, k requires 0 <= k < |s| =>
      if k == 0 then s[k] / (-1.0 * (n as real / 2.0)) / -2.0 else s[k] / (-1.0 * (n as real / 2.0)))
  }

  /**
   * What the two divisions amount to: bin 0 of both parts is divided by n,
   * every other real coefficient by n/2 and every other imaginary one by
   * -n/2.
   */
  lemma ScaledCoefficients(re: seq<real>, im: seq<real>, n: nat)
    requires n > 0
    ensures forall k :: 0 <= k < |re| ==>
      ScaledRe(re, n)[k] == if k == 0 then re[k] / n as real else re[k] / (n as real / 2.0)
    ensures forall k :: 0 <= k < |im| ==>
      ScaledIm(im, n)[k] == if k == 0 then im[k] / n as real else -(im[k] / (n as real / 2.0))
  {
    if |re| > 0 {
      assert re[0] / (n as real / 2.0) / 2.0 == re[0] / n as real;
    }
    if |im| > 0 {
      assert im[0] / (-1.0 * (n as real / 2.0)) / -2.0 == im[0] / n as real;
    }
  }

  /**
   * The scaling at the top of dsp_idft's outer loop: bin k of Re X and Im X
   * divided into locals by the two dividers, bin 0 once more by 2 and -2.
   * The locals are the k-th coefficients ScaledRe and ScaledIm describe.
   */
  method ScaleBin(rv: real, iv: real, k: nat, n: nat, divRex: real, divImx: real,
                  ghost rs: seq<real>, ghost ims: seq<real>) returns (re: real, im: real)
    requires 0 < n && k < |rs| && k < |ims| && rv == rs[k] && iv == ims[k]
    requires divRex == n as real / 2.0 && divImx == -1.0 * (n as real / 2.0)
    ensures re == ScaledRe(rs, n)[k] && im == ScaledIm(ims, n)[k]
  {
    re := rv / divRex;
    im := iv / divImx;
    if k == 0 {
      re := re / 2.0;
      im := im / -2.0;
    }
  }

  /**
   * dsp_idft. The output's n samples are zeroed, then the n/2 bins
   * k < n/2 are scaled into locals (the caller's coefficient arrays are only
   * read) and synthesised into every sample.
   */
  method Idft(m: MathLib, dest: array<real>, rex: array<real>, imx: array<real>, n: nat)
    requires n <= dest.Length && n / 2 <= rex.Length && n / 2 <= imx.Length
    requires dest != rex && dest != imx
    modifies dest
    ensures forall i :: 0 <= i < n ==>
      dest[i] == Synthesis(m, ScaledRe(rex[..n / 2], n), ScaledIm(imx[..n / 2], n), i, n, n / 2)
    ensures forall i :: n <= i < dest.Length ==> dest[i] == old(dest[i])
  {
    ZeroFill(dest, n);
    var k: nat := 0;
    var divRex := n as real / 2.0;
    var divImx := -1.0 * (n as real / 2.0);
    ghost var rs, ims := rex[..n / 2], imx[..n / 2];
    ghost var sr := if n > 0 then ScaledRe(rs, n) else [];
    ghost var si := if n > 0 then ScaledIm(ims, n) else [];
    while k < n / 2
      modifies dest
      invariant k <= n / 2
      invariant forall j :: 0 <= j < n ==> dest[j] == Synthesis(m, sr, si, j, n, k)
      invariant forall j :: n <= j < dest.Length ==> dest[j] == old(dest[j])
    {
      assert rex[k] == rs[k] && imx[k] == ims[k];
      var re, im := ScaleBin(rex[k], imx[k], k, n, divRex, divImx, rs, ims);
      SynthesiseBin(m, dest, sr, si, re, im, k, n);
      k := k + 1;
    }
    assert rex[..n / 2] == rs && imx[..n / 2] == ims;
  }

  /**
   * Sample 0 of dsp_idft's output: the DC coefficient divided by n plus every
   * other real coefficient divided by n/2.
   */
  lemma IdftSampleZero(m: MathLib, rex: seq<real>, imx: seq<real>, n: nat)
    requires Sane(m) && 2 <= n && n / 2 <= |rex| && n / 2 <= |imx|
    ensures Synthesis(m, ScaledRe(rex[..n / 2], n), ScaledIm(imx[..n / 2], n), 0, n, n / 2)
            == rex[0] / n as real + Sum(rex[1..n / 2]) / (n as real / 2.0)
  {
    var sr := ScaledRe(rex[..n / 2], n);
    SynthesisAtZero(m, sr, ScaledIm(imx[..n / 2], n), n, n / 2);
    assert sr[..n / 2] == sr;
    SumSplitFirst(sr);
    ScaledCoefficients(rex[..n / 2], imx[..n / 2], n);
    SumDivided(sr[1..], rex[1..n / 2], n as real / 2.0);
  }

  /** The magnitude of one bin: sqrt(re^2 + im^2). */
  function Magnitude(m: MathLib, re: real, im: real): real
  {
    m.sqrt(Pow2(re) + Pow2(im))
  }

  /**
   * dsp_dft_magnitude: mag[i] for i < len; nothing else is written. Cell i of
   * both inputs is read before mag[i] is written, so mag may be the same
   * array as rex or imx: each magnitude comes from the inputs as they were.
   */
  method DftMagnitude(m: MathLib, mag: array<real>, rex: array<real>, imx: array<real>, len: nat)
    requires len <= mag.Length && len <= rex.Length && len <= imx.Length
    modifies mag
    ensures forall i :: 0 <= i < len ==> mag[i] == Magnitude(m, old(rex[i]), old(imx[i]))
    ensures forall i :: len <= i < mag.Length ==> mag[i] == old(mag[i])
  {
    var i: nat := 0;
    while i < len
      invariant i <= len
      invariant forall j :: 0 <= j < i ==> mag[j] == Magnitude(m, old(rex[j]), old(imx[j]))
      invariant forall j :: i <= j < mag.Length ==> mag[j] == old(mag[j])
      invariant forall j :: i <= j < rex.Length ==> rex[j] == old(rex[j])
      invariant forall j :: i <= j < imx.Length ==> imx[j] == old(imx[j])
    {
      mag[i] := m.sqrt(Pow2(rex[i]) + Pow2(imx[i]));
      i := i + 1;
    }
  }

  /** Re X[k] after dsp_rect2polar: a zero is replaced by 10^-20 in the caller's array. */
  function RexAfter(r: real): (after: real)
    ensures after != 0.0
    ensures r != 0.0 ==> after == r
  {
    if r == 0.0 then Tiny else r
  }

  /**
   * Phase[k] after dsp_rect2polar as written, from the value `prior` the
   * caller's phase buffer held: the arctangent is only assigned when Re X[k]
   * was zero; a negative Re X[k] shifts the PRIOR value by -pi or +pi; a
   * positive one leaves it alone.
   */
  function PhaseAsWritten(m: MathLib, prior: real, r: real, i: real): (phi: real)
    ensures r != 0.0 ==> phi - prior in {-Pi, 0.0, Pi}
    ensures r > 0.0 ==> phi == prior
    ensures r < 0.0 ==> (phi < prior <==> i < 0.0)
  {
    if r == 0.0 then m.atan(i / Tiny)
    else if r < 0.0 && i < 0.0 then prior - Pi
    else if r < 0.0 && i >= 0.0 then prior + Pi
    else prior
  }

  /**
   * The phase rules seen from the caller's side: only a zero Re X[k] makes
   * the result independent of what the phase buffer held; any other Re X[k]
   * shifts the prior value by -pi, 0 or +pi, the same shift whatever it was.
   */
  lemma PhaseAsWrittenShifts(m: MathLib, p1: real, p2: real, r: real, i: real)
    ensures r == 0.0 ==> PhaseAsWritten(m, p1, r, i) == PhaseAsWritten(m, p2, r, i)
    ensures r != 0.0 ==> PhaseAsWritten(m, p1, r, i) - p1 == PhaseAsWritten(m, p2, r, i) - p2
    ensures r != 0.0 ==> PhaseAsWritten(m, p1, r, i) - p1 in {-Pi, 0.0, Pi}
    ensures r > 0.0 ==> PhaseAsWritten(m, p1, r, i) == p1
  {
  }

  /**
   * One iteration of dsp_rect2polar's loop, on bin k: the magnitude is
   * taken from the original Re X[k]; a zero Re X[k] is then overwritten
   * with 10^-20 in place and only in that case is the phase assigned the
   * arctangent; a negative Re X[k] shifts the phase cell by -pi or +pi.
   */
  method ConvertBin(m: MathLib, mag: array<real>, phase: array<real>, rex: array<real>, imx: array<real>, k: nat)
    requires k < mag.Length && k < phase.Length && k < rex.Length && k < imx.Length
    requires mag != phase && mag != rex && mag != imx && phase != rex && phase != imx && rex != imx
    modifies mag, phase, rex
    ensures mag[k] == Magnitude(m, old(rex[k]), imx[k])
    ensures rex[k] == RexAfter(old(rex[k])) && rex[k] != 0.0
    ensures phase[k] == PhaseAsWritten(m, old(phase[k]), old(rex[k]), imx[k])
    ensures forall j :: 0 <= j < mag.Length && j != k ==> mag[j] == old(mag[j])
    ensures forall j :: 0 <= j < phase.Length && j != k ==> phase[j] == old(phase[j])
    ensures forall j :: 0 <= j < rex.Length && j != k ==> rex[j] == old(rex[j])
  {
    mag[k] := m.sqrt(Pow2(rex[k]) + Pow2(imx[k]));
    if rex[k] == 0.0 {
      rex[k] := Tiny;
      phase[k] := m.atan(imx[k] / rex[k]);
    }
    if rex[k] < 0.0 && imx[k] < 0.0 {
      phase[k] := phase[k] - Pi;
    }
    if rex[k] < 0.0 && imx[k] >= 0.0 {
      phase[k] := phase[k] + Pi;
    }
  }

  /**
   * dsp_rect2polar: ConvertBin on every bin k < len. Everything the caller's
   * buffers held at or above len is left alone.
   */
  method Rect2Polar(m: MathLib, mag: array<real>, phase: array<real>, rex: array<real>, imx: array<real>, len: nat)
    requires len <= mag.Length && len <= phase.Length && len <= rex.Length && len <= imx.Length
    requires mag != phase && mag != rex && mag != imx && phase != rex && phase != imx && rex != imx
    modifies mag, phase, rex
    ensures forall k :: 0 <= k < len ==> mag[k] == Magnitude(m, old(rex[k]), imx[k])
    ensures forall k :: 0 <= k < len ==> rex[k] == RexAfter(old(rex[k])) && rex[k] != 0.0
    ensures forall k :: 0 <= k < len ==> phase[k] == PhaseAsWritten(m, old(phase[k]), old(rex[k]), imx[k])
    ensures forall k :: len <= k < mag.Length ==> mag[k] == old(mag[k])
    ensures forall k :: len <= k < phase.Length ==> phase[k] == old(phase[k])
    ensures forall k :: len <= k < rex.Length ==> rex[k] == old(rex[k])
  {
    ghost var r0, p0, i0 := rex[..], phase[..], imx[..];
    var k: nat := 0;
    while k < len
      invariant k <= len
      invariant imx[..] == i0
      invariant forall j :: 0 <= j < k ==> mag[j] == Magnitude(m, r0[j], i0[j])
      invariant forall j :: 0 <= j < k ==> rex[j] == RexAfter(r0[j])
      invariant forall j :: 0 <= j < k ==> phase[j] == PhaseAsWritten(m, p0[j], r0[j], i0[j])
      invariant forall j :: k <= j < mag.Length ==> mag[j] == old(mag[j])
      invariant forall j :: k <= j < phase.Length ==> phase[j] == p0[j]
      invariant forall j :: k <= j < rex.Length ==> rex[j] == r0[j]
    {
      ConvertBin(m, mag, phase, rex, imx, k);
      k := k + 1;
    }
  }

  /**
   * The phase the conversion evidently intends: arctan(Im/Re) for every bin,
   * Re replaced by 10^-20 when it is zero, and shifted by -pi or +pi when Re
   * is negative.
   */
  function PhaseIntended(m: MathLib, r: real, i: real): real
  {
    var re := RexAfter(r);
    var base := m.atan(i / re);
    if re < 0.0 && i < 0.0 then base - Pi
    else if re < 0.0 && i >= 0.0 then base + Pi
    else base
  }

  /**
   * The code as written equals the intended phase exactly when the caller's
   * phase buffer already held the base arctangent: the only thing missing is
   * the assignment of atan(Im/Re) outside the zero branch.
   */
  lemma PhaseAsWrittenMissesBase(m: MathLib, r: real, i: real)
    ensures PhaseAsWritten(m, m.atan(i / RexAfter(r)), r, i) == PhaseIntended(m, r, i)
    ensures r == 0.0 ==> forall prior :: PhaseAsWritten(m, prior, r, i) == PhaseIntended(m, r, i)
    ensures r != 0.0 ==> forall prior ::
      PhaseAsWritten(m, prior, r, i) == PhaseIntended(m, r, i) <==> prior == m.atan(i / RexAfter(r))
  {
  }

  /**
   * A concrete witness: Re = Im = 1 on a zeroed phase buffer gives phase 0
   * as written, where arctan(1) is intended.
   */
  lemma PhaseFinding(m: MathLib)
    requires m.atan(1.0) != 0.0
    ensures PhaseAsWritten(m, 0.0, 1.0, 1.0) == 0.0
    ensures PhaseIntended(m, 1.0, 1.0) == m.atan(1.0) != PhaseAsWritten(m, 0.0, 1.0, 1.0)
  {
  }

  /**
   * One bin of the corrected conversion: the magnitude as before, the zero
   * substitution on a local, the arctangent always assigned, then shifted
   * by -pi or +pi for a negative Re X[k]. Re X is only read.
   */
  method ConvertBinCorrected(m: MathLib, mag: array<real>, phase: array<real>, rex: array<real>, imx: array<real>, k: nat)
    requires k < mag.Length && k < phase.Length && k < rex.Length && k < imx.Length
    requires mag != phase && mag != rex && mag != imx && phase != rex && phase != imx
    modifies mag, phase
    ensures mag[k] == Magnitude(m, rex[k], imx[k])
    ensures phase[k] == PhaseIntended(m, rex[k], imx[k])
    ensures forall j :: 0 <= j < mag.Length && j != k ==> mag[j] == old(mag[j])
    ensures forall j :: 0 <= j < phase.Length && j != k ==> phase[j] == old(phase[j])
  {
    mag[k] := m.sqrt(Pow2(rex[k]) + Pow2(imx[k]));
    var re := rex[k];
    if re == 0.0 {
      re := Tiny;
    }
    phase[k] := m.atan(imx[k] / re);
    if re < 0.0 && imx[k] < 0.0 {
      phase[k] := phase[k] - Pi;
    }
    if re < 0.0 && imx[k] >= 0.0 {
      phase[k] := phase[k] + Pi;
    }
  }

  /**
   * dsp_rect2polar with the phase computed for every bin and the zero
   * substitution made on a local copy, so the caller's Re X is left intact.
   */
  method Rect2PolarCorrected(m: MathLib, mag: array<real>, phase: array<real>, rex: array<real>, imx: array<real>, len: nat)
    requires len <= mag.Length && len <= phase.Length && len <= rex.Length && len <= imx.Length
    requires mag != phase && mag != rex && mag != imx && phase != rex && phase != imx
    modifies mag, phase
    ensures forall k :: 0 <= k < len ==> mag[k] == Magnitude(m, rex[k], imx[k])
    ensures forall k :: 0 <= k < len ==> phase[k] == PhaseIntended(m, rex[k], imx[k])
    ensures forall k :: len <= k < mag.Length ==> mag[k] == old(mag[k])
    ensures forall k :: len <= k < phase.Length ==> phase[k] == old(phase[k])
  {
    var k: nat := 0;
    while k < len
      invariant k <= len
      invariant forall j :: 0 <= j < k ==> mag[j] == Magnitude(m, rex[j], imx[j])
      invariant forall j :: 0 <= j < k ==> phase[j] == PhaseIntended(m, rex[j], imx[j])
      invariant forall j :: k <= j < mag.Length ==> mag[j] == old(mag[j])
      invariant forall j :: k <= j < phase.Length ==> phase[j] == old(phase[j])
    {
      ConvertBinCorrected(m, mag, phase, rex, imx, k);
      k := k + 1;
    }
  }
}

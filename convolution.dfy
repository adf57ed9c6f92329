/**
 * Discrete convolution (src/dsp_convolution.c): dest[0..n+m) is zeroed and
 * then, for every pair (i, j) with i < n and j < m, x[i] * h[j] is added
 * into dest[i + j].
 */
module Convolution {
  import opened DspCommon

  /**
   * Row i of the convolution sum at output index t: x[i] * h[t - i] when
   * t - i indexes h, otherwise nothing.
   */
  function Row(x: seq<real>, h: seq<real>, i: nat, t: nat): real
    requires i < |x|
  {
    if i <= t < i + |h| then x[i] * h[t - i] else 0.0
  }

  /** Output index t after the rows i < r have been accumulated. */
  function ConvUpTo(x: seq<real>, h: seq<real>, t: nat, r: nat): real
    requires r <= |x|
  {
    if r == 0 then 0.0 else ConvUpTo(x, h, t, r - 1) + Row(x, h, r - 1, t)
  }

  /** The convolution sum at t: the sum of x[i] * h[j] over all i + j = t. */
  function Conv(x: seq<real>, h: seq<real>, t: nat): real
  {
    ConvUpTo(x, h, t, |x|)
  }

  /**
   * The inner loop for row i: x[i] * h[j] is added into dest[i + j] for
   * j < m, in order of j. Every other cell keeps its value.
   */
  method AccumulateRow(dest: array<real>, x: array<real>, h: array<real>, i: nat, n: nat, m: nat)
    requires i < n <= x.Length && m <= h.Length && n + m <= dest.Length
    requires dest != x && dest != h
    modifies dest
    ensures forall t :: 0 <= t < dest.Length ==> dest[t] == old(dest[t]) + Row(x[..n], h[..m], i, t)
  {
    ghost var xs, hs, d0 := x[..n], h[..m], dest[..];
    var j: nat := 0;
    while j < m
      invariant j <= m
      invariant forall t :: 0 <= t < dest.Length ==>
        dest[t] == d0[t] + (if i <= t < i + j then Row(xs, hs, i, t) else 0.0)
    {
      assert x[i] == xs[i] && h[j] == hs[j];
      dest[i + j] := dest[i + j] + x[i] * h[j];
      j := j + 1;
    }
    assert x[..n] == xs && h[..m] == hs;
  }

  /**
   * dsp_convolution. dest must not alias either input, which are only
   * read. Every index t < n + m ends as the convolution sum; nothing at or
   * beyond n + m is touched.
   */
  method Convolve(dest: array<real>, x: array<real>, n: nat, h: array<real>, m: nat)
    requires n <= x.Length && m <= h.Length && n + m <= dest.Length
    requires dest != x && dest != h
    modifies dest
    ensures forall t :: 0 <= t < n + m ==> dest[t] == Conv(x[..n], h[..m], t)
    ensures forall t :: n + m <= t < dest.Length ==> dest[t] == old(dest[t])
  {
    ZeroFill(dest, n + m);
    ghost var xs, hs := x[..n], h[..m];
    var i: nat := 0;
    while i < n
      invariant i <= n
      invariant forall t :: 0 <= t < n + m ==> dest[t] == ConvUpTo(xs, hs, t, i)
      invariant forall t :: n + m <= t < dest.Length ==> dest[t] == old(dest[t])
    {
      AccumulateRow(dest, x, h, i, n, m);
      i := i + 1;
    }
    assert x[..n] == xs && h[..m] == hs;
  }

  /**
   * Rows only add at indices below i + |h|: once t + 1 >= r + |h| none of
   * the first r rows reaches t.
   */
  lemma {:induction false} Vanishes(x: seq<real>, h: seq<real>, t: nat, r: nat)
    requires r <= |x| && t + 1 >= r + |h|
    ensures ConvUpTo(x, h, t, r) == 0.0
  {
    if r > 0 {
      Vanishes(x, h, t, r - 1);
    }
  }

  /**
   * The highest index accumulated into is n + m - 2, so dest[n + m - 1]
   * always ends as 0.
   */
  lemma LastIsZero(x: seq<real>, h: seq<real>)
    requires |x| + |h| >= 1
    ensures Conv(x, h, |x| + |h| - 1) == 0.0
  {
    Vanishes(x, h, |x| + |h| - 1, |x|);
  }

  /** An empty impulse response leaves every row empty. */
  lemma {:induction false} EmptyKernel(x: seq<real>, t: nat, r: nat)
    requires r <= |x|
    ensures ConvUpTo(x, [], t, r) == 0.0
  {
    if r > 0 {
      EmptyKernel(x, t, r - 1);
    }
  }

  /** With n = 0 or m = 0 the output is all zeros. */
  lemma EmptyInputs(x: seq<real>, h: seq<real>, t: nat)
    requires |x| == 0 || |h| == 0
    ensures Conv(x, h, t) == 0.0
  {
    if |h| == 0 {
      assert h == [];
      EmptyKernel(x, t, |x|);
    }
  }

  /** ConvUpTo reads only the first r samples of x. */
  lemma {:induction false} PrefixOnly(x1: seq<real>, x2: seq<real>, h: seq<real>, t: nat, r: nat)
    requires r <= |x1| && r <= |x2| && x1[..r] == x2[..r]
    ensures ConvUpTo(x1, h, t, r) == ConvUpTo(x2, h, t, r)
  {
    if r > 0 {
      assert x1[r - 1] == x1[..r][r - 1] == x2[..r][r - 1] == x2[r - 1];
      assert x1[..r - 1] == x1[..r][..r - 1];
      assert x2[..r - 1] == x2[..r][..r - 1];
      PrefixOnly(x1, x2, h, t, r - 1);
    }
  }

  /**
   * Appending a sample a to the SECOND argument adds h[t - |y|] * a at t,
   * for rows r of h that reach it.
   */
  lemma {:induction false} ExtendKernel(h: seq<real>, y: seq<real>, a: real, t: nat, r: nat)
    requires r <= |h|
    ensures ConvUpTo(h, y + [a], t, r)
         == ConvUpTo(h, y, t, r) + (if |y| <= t < |y| + r then h[t - |y|] * a else 0.0)
  {
    if r > 0 {
      ExtendKernel(h, y, a, t, r - 1);
      var j := r - 1;
      if j <= t < j + |y| {
        assert (y + [a])[t - j] == y[t - j];
      }
    }
  }

  /**
   * Over exact reals, swapping signal and impulse response (with their
   * lengths) gives the same output at every index.
   */
  lemma {:induction false} Commutative(x: seq<real>, h: seq<real>, t: nat)
    ensures Conv(x, h, t) == Conv(h, x, t)
    decreases |x|
  {
    if |x| == 0 {
      assert x == [];
      EmptyKernel(h, t, |h|);
    } else {
      var y, a := x[..|x| - 1], x[|x| - 1];
      assert x == y + [a];
      Commutative(y, h, t);
      PrefixOnly(x, y, h, t, |y|);
      ExtendKernel(h, y, a, t, |h|);
    }
  }
}

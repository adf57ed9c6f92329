/**
 * Definitions shared by every part of the DSP library model: the value type
 * (dsp_val_t, a double, modelled as `real`), the size type (an unsigned
 * long, modelled as `nat`), M_PI, and the <math.h> functions the routines
 * call.
 */
module DspCommon {

  /** M_PI as Inc/dsp_common.h defines it when <math.h> does not. */
  const Pi: real := 3.14159265358979323846

  /**
   * The <math.h> functions the library calls. Their values are not modelled:
   * every operation takes them as a parameter, so what is proved holds for
   * ANY sin, cos, atan and sqrt (and, where a lemma asks for it, for any that
   * satisfy Sane).
   */
  datatype MathLib = MathLib(sin: real -> real, cos: real -> real, atan: real -> real, sqrt: real -> real)

  /** The only facts about the trigonometric functions the model relies on. */
  predicate Sane(m: MathLib)
  {
    m.sin(0.0) == 0.0 && m.cos(0.0) == 1.0
  }

  /** The argument 2*pi*k*i/n of the k-th basis wave at sample i, as the transforms compute it. */
  function Angle(k: nat, i: nat, n: nat): real
    requires n > 0
  {
    2.0 * Pi * k as real * i as real / n as real
  }

  /** pow(x, 2) */
  function Pow2(x: real): real
  {
    x * x
  }

  /** Sum of a sequence, accumulated from the front as the source's `+=` loops do. */
  function Sum(s: seq<real>): real
  {
    if |s| == 0 then 0.0 else Sum(s[..|s| - 1]) + s[|s| - 1]
  }

  /** Dividing every element by the same non-zero c divides the sum by c. */
  lemma {:induction false} SumDivided(t: seq<real>, s: seq<real>, c: real)
    requires c != 0.0 && |t| == |s|
    requires forall k :: 0 <= k < |s| ==> t[k] == s[k] / c
    ensures Sum(t) == Sum(s) / c
  {
    if |s| > 0 {
      var last := |s| - 1;
      SumDivided(t[..last], s[..last], c);
      assert Sum(s[..last]) / c + s[last] / c == (Sum(s[..last]) + s[last]) / c;
    }
  }

  /** Sum peels its first element as well as its last. */
  lemma {:induction false} SumSplitFirst(s: seq<real>)
    requires |s| > 0
    ensures Sum(s) == s[0] + Sum(s[1..])
  {
    if |s| > 1 {
      SumSplitFirst(s[..|s| - 1]);
      assert s[..|s| - 1][1..] == s[1..][..|s[1..]| - 1];
    }
  }

  /** The library's reset loop: the first n cells of a become 0.0, the rest are untouched. */
  method ZeroFill(a: array<real>, n: nat)
    requires n <= a.Length
    modifies a
    ensures forall i :: 0 <= i < n ==> a[i] == 0.0
    ensures forall i :: n <= i < a.Length ==> a[i] == old(a[i])
  {
    var i: nat := 0;
    while i < n
      invariant i <= n
      invariant forall j :: 0 <= j < i ==> a[j] == 0.0
      invariant forall j :: i <= j < a.Length ==> a[j] == old(a[j])
    {
      a[i] := 0.0;
      i := i + 1;
    }
  }
}

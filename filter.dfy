/**
 * The windowed-sinc low-pass kernel and its two windows (Src/dsp_filter.c).
 * Taps are indexed about the centre len/2; the centre tap is 2*pi*c and is
 * not windowed; every other tap is sin(2*pi*c*offset)/offset times the
 * window at the absolute index.
 */
module Filter {
  import opened DspCommon

  /**
   * The window_calc argument: NULL (the Hamming window is then
   * used) or a callback taking the tap index and the kernel length.
   */
  datatype WindowCalc = NullWindow | Callback(fn: (int, nat) -> real)

  /**
   * dsp_hamming_window: 0.54 - 0.46 * cos(2*pi*idx/len); len = 0 would divide
   * by zero. Wherever cos lies in [-1, 1] the window lies in [0.08, 1].
   */
  function Hamming(m: MathLib, idx: int, len: nat): (w: real)
    requires len > 0
    ensures -1.0 <= m.cos(2.0 * Pi * idx as real / len as real) <= 1.0 ==> 0.08 <= w <= 1.0
  {
    0.54 - 0.46 * m.cos(2.0 * Pi * idx as real / len as real)
  }

  /**
   * dsp_blackman_window: 0.42 - 0.5 * cos(2*pi*idx/len) + 0.08 * cos(4*pi*idx/len).
   * Wherever cos lies in [-1, 1] and obeys the double-angle rule at this
   * angle, the window lies in [0, 1].
   */
  function Blackman(m: MathLib, idx: int, len: nat): (w: real)
    requires len > 0
    ensures var c := m.cos((2.0 * Pi * idx as real) / len as real);
      -1.0 <= c <= 1.0 && m.cos((4.0 * Pi * idx as real) / len as real) == 2.0 * c * c - 1.0
      ==> 0.0 <= w <= 1.0
  {
    var c := m.cos((2.0 * Pi * idx as real) / len as real);
    var c2 := m.cos((4.0 * Pi * idx as real) / len as real);
    BlackmanBounds(c, c2);
    0.42 - 0.5 * c + 0.08 * c2
  }

  /** The Blackman polynomial 0.34 - 0.5c + 0.16c^2 stays in [0, 1] on [-1, 1]. */
  lemma BlackmanBounds(c: real, c2: real)
    ensures -1.0 <= c <= 1.0 && c2 == 2.0 * c * c - 1.0 ==> 0.0 <= 0.42 - 0.5 * c + 0.08 * c2 <= 1.0
  {
    if -1.0 <= c <= 1.0 && c2 == 2.0 * c * c - 1.0 {
      assert 0.42 - 0.5 * c + 0.08 * c2 == 0.16 * ((1.0 - c) * (2.125 - c));
      assert 0.42 - 0.5 * c + 0.08 * c2 - 1.0 == -0.16 * ((c + 1.0) * (4.125 - c));
      assert (1.0 - c) * (2.125 - c) >= 0.0;
      var a, b := c + 1.0, 4.125 - c;
      assert a >= 0.0 && b > 0.0;
      assert a * b >= 0.0;
    }
  }

  /** The window factor for tap i: Hamming for NULL, otherwise the callback. */
  function WindowAt(m: MathLib, w: WindowCalc, i: int, len: nat): real
    requires len > 0
  {
    match w
    case NullWindow => Hamming(m, i, len)
    case Callback(fn) => fn(i, len)
  }

  /** The signed distance of tap i from the centre index len/2. */
  function Offset(i: nat, len: nat): (r: int)
    requires i < len
    ensures -(len / 2) <= r <= len - 1 - len / 2
    ensures r == 0 <==> i == len / 2
  {
    i - len / 2
  }

  /** The unwindowed sinc value sin(2*pi*c*offset)/offset of an off-centre tap. */
  function Sinc(m: MathLib, c: real, offset: int): (r: real)
    requires offset != 0
    ensures r == 0.0 <==> m.sin(2.0 * Pi * c * offset as real) == 0.0
  {
    m.sin(2.0 * Pi * c * offset as real) / offset as real
  }

  /**
   * Tap i of the kernel for cutoff ratio c: the centre tap is 2*pi*c, any
   * other tap vanishes exactly where its window factor or its sinc value does.
   */
  function Tap(m: MathLib, c: real, w: WindowCalc, i: nat, len: nat): (r: real)
    requires i < len
    ensures i == len / 2 ==> r == 2.0 * Pi * c
    ensures i != len / 2 ==> (r == 0.0 <==> WindowAt(m, w, i, len) == 0.0 || Sinc(m, c, i - len / 2) == 0.0)
  {
    var offset := Offset(i, len);
    if offset == 0 then 2.0 * Pi * c
    else Sinc(m, c, offset) * WindowAt(m, w, i, len)
  }

  /**
   * dsp_lp_win_sinc_filter. The cutoff ratio c = cutoff/sampleFreq must lie
   * strictly between 0 and 0.5 (which also rules out a zero sample
   * frequency). Exactly output[0..len) is written, tap by tap: an off-centre
   * cell first receives its sinc value and is then multiplied by the window.
   */
  method LowPassWinSinc(m: MathLib, output: array<real>, sampleFreq: real, cutoff: real, w: WindowCalc, len: nat)
    requires sampleFreq != 0.0 && 0.0 < cutoff / sampleFreq < 0.5
    requires len <= output.Length
    modifies output
    ensures forall i :: 0 <= i < len ==> output[i] == Tap(m, cutoff / sampleFreq, w, i, len)
    ensures forall i :: len <= i < output.Length ==> output[i] == old(output[i])
  {
    var c := cutoff / sampleFreq;
    var i: nat := 0;
    while i < len
      invariant i <= len
      invariant forall j :: 0 <= j < i ==> output[j] == Tap(m, c, w, j, len)
      invariant forall j :: i <= j < output.Length ==> output[j] == old(output[j])
    {
      var offset: int := i - len / 2;
      if offset == 0 {
        output[i] := 2.0 * Pi * c;
      } else {
        output[i] := Sinc(m, c, offset);
        if w.NullWindow? {
          output[i] := output[i] * Hamming(m, i, len);
        } else {
          output[i] := output[i] * WindowAt(m, w, i, len);
        }
      }
      i := i + 1;
    }
  }

  /** The centre tap is 2*pi*c whatever window is passed: it is never windowed. */
  lemma CentreTapUnwindowed(m: MathLib, c: real, w1: WindowCalc, w2: WindowCalc, len: nat)
    requires len > 0
    ensures Tap(m, c, w1, len / 2, len) == Tap(m, c, w2, len / 2, len) == 2.0 * Pi * c
  {
  }

  /** With a NULL window argument an off-centre tap is its sinc value times the Hamming window. */
  lemma DefaultWindowIsHamming(m: MathLib, c: real, i: nat, len: nat)
    requires i < len && i != len / 2
    ensures Tap(m, c, NullWindow, i, len) == Sinc(m, c, i - len / 2) * Hamming(m, i, len)
  {
  }

  /**
   * A callback is applied to the absolute tap index i and the length, not
   * to the offset from the centre.
   */
  lemma CallbackGetsAbsoluteIndex(m: MathLib, c: real, f: (int, nat) -> real, i: nat, len: nat)
    requires i < len && i != len / 2
    ensures Tap(m, c, Callback(f), i, len) == Sinc(m, c, i - len / 2) * f(i, len)
  {
  }

  /** With cos 0 = 1 the Hamming window is 0.54 - 0.46 = 0.08 at index 0. */
  lemma HammingAtZero(m: MathLib, len: nat)
    requires Sane(m) && len > 0
    ensures Hamming(m, 0, len) == 0.08
  {
    assert 2.0 * Pi * 0 as real / len as real == 0.0;
  }

  /** With cos 0 = 1 the Blackman window is 0.42 - 0.5 + 0.08 = 0 at index 0. */
  lemma BlackmanAtZero(m: MathLib, len: nat)
    requires Sane(m) && len > 0
    ensures Blackman(m, 0, len) == 0.0
  {
    assert (2.0 * Pi * 0 as real) / len as real == 0.0;
    assert (4.0 * Pi * 0 as real) / len as real == 0.0;
  }

  /**
   * The cutoff example in the routine's documentation, 48 kHz sampling and a
   * 10 kHz cutoff (c = 10/48), on a kernel of 29 taps, a length chosen here:
   * tap 14 holds 2*pi*10/48, whatever the window.
   */
  lemma CentreTapExample(m: MathLib, w: WindowCalc)
    ensures Tap(m, 10.0 / 48.0, w, 14, 29) == 2.0 * Pi * (10.0 / 48.0)
  {
  }
}

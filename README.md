# dsp-basic in Dafny

A model of the numerical core of the dsp-basic C library. It also covers
two string helpers from the library's test harness. The core consists of:

- the real discrete Fourier transform pair, the magnitude and the
  rectangular-to-polar conversion (`Src/dsp_dft.c`), with the older transform
  pair that rescales its input in place (`src/dsp_dft.c`);
- the complex DFT (`Src/dsp_cdft.c`);
- the windowed-sinc low-pass kernel and its Hamming and Blackman windows
  (`Src/dsp_filter.c`);
- the linear convolution (`src/dsp_convolution.c`);
- mean, variance and standard deviation (`Src/dsp_stat.c` and its copy
  `src/signal_stat.c`);
- `prepare_path` and the test-directory truncation in `main`
  (`test/src/main.c`).

How the model is built:

- A `dsp_val_t` is a `real` and every size type is a `nat`.
- Caller buffers are `array<real>` or `array<char>`. Every routine writes
  them in place, cell by cell, in the order the C code writes them. For
  example, `dsp_lp_win_sinc_filter` first stores a tap's sinc value and then
  multiplies the cell by the window, and `dsp_rect2polar` overwrites a zero
  Re X[k] and then reads it back.
- Each routine is a method proved against a specification function on the
  buffers' contents, for example `CosSum`, `Synthesis`, `Conv`, `Sum` or
  `SquaredDeviations`. Lemmas then state what that function means: the DC
  bin, sample 0, commutativity, constant signals, and how the path splits.
- `sin`, `cos`, `atan` and `sqrt` are the fields of a `MathLib` value passed
  to every routine, so each result holds for any such functions. Where a
  lemma needs sin 0 = 0 and cos 0 = 1 it asks for `Sane(m)`.
- `M_PI` is the constant `Pi`, and `pow(x, 2)` is `Pow2(x) = x * x`.

The modules are `DspCommon` (shared definitions), `Fourier` (the sums both
DFT generations accumulate), `Dft`, `DftLegacy`, `Cdft`, `Filter`,
`Convolution`, `Stat`, `SignalStat` and `TestPaths`.

Sometimes the doc comment above a routine in the C source promises more
than the code does. The model follows the code. Those places are:

- `dsp_dft`'s comment promises N/2 + 1 amplitudes; the code writes n/2 bins.
- `dsp_cdft`'s comment gives the complex DFT formula; the code zeroes bin 0
  and does nothing else.
- `dsp_rect2polar`'s comment gives Phase[k] = arctan(ImX[k] / ReX[k]); the
  code assigns the phase only when Re X[k] is zero. It also changes the
  caller's Re X.
- `dsp_idft`'s comment (Src/dsp_dft.c) divides Im X[k] by a positive
  divisor; the code divides it by -(N/2), and by -2 more at bin 0
  (`Dft.ScaledCoefficients`).
- The older `dsp_idft`'s comment (src/dsp_dft.c:55-56) divides Im X[k] by a
  positive N/2 and bin 0 by N; the code divides bin 0 by 2 and by -2
  (src/dsp_dft.c:69-70) and the other imaginary bins by -(N/2) (:74)
  (`DftLegacy.RescaledIm`, `DftLegacy.PrepareCoefficients`).
- `dsp_lp_win_sinc_filter`'s comment gives the sinc kernel
  h[i] = sin(2*pi*fc*i) / (i*pi). The code computes sin(2*pi*c*offset) /
  offset off centre and 2*pi*c at the centre, so every tap is pi times the
  documented value (`Filter.Tap`, `Filter.LowPassWinSinc`).

The second and third, and the older inverse's bin-0 divisor, are also listed
under Findings.

## Model

| member | source | states |
|---|---|---|
| DspCommon.ZeroFill | Src/dsp_dft.c:70 | the reset loop sets exactly cells 0..n-1 to 0 and keeps every other cell |
| Fourier.CorrelateBin | Src/dsp_dft.c:45-48 | the inner forward loop adds the cosine correlation of the n samples to Re X[k] and subtracts the sine correlation from Im X[k]; no other cell changes and the input is only read |
| Fourier.SynthesiseBin | Src/dsp_dft.c:87-90 | the inner inverse loop adds bin k's cosine and then sine wave to each of the n samples; samples at or above n are untouched |
| Fourier.DcBin | Src/dsp_dft.c:46-47 | given cos 0 = 1 and sin 0 = 0, bin 0 accumulates the plain sum of the samples into Re X and nothing into Im X |
| Fourier.SynthesisAtZero | Src/dsp_dft.c:88-89 | given cos 0 = 1 and sin 0 = 0, output sample 0 is the sum of the real coefficients |
| Dft.Dft | Src/dsp_dft.c:37-50 | only cell 0 of each output is zeroed, even when n < 2; each bin k < n/2 is what the caller's buffer held (0 for bin 0) plus the correlation sums; bins at or above n/2 are never written |
| Dft.DftDcBin | Src/dsp_dft.c:42-47 | Re X[0] is the sum of the n samples and Im X[0] is 0 |
| Dft.ScaledRe | Src/dsp_dft.c:73-84 | the scaled real coefficients keep the number of bins |
| Dft.ScaledIm | Src/dsp_dft.c:73-84 | the scaled imaginary coefficients keep the number of bins |
| Dft.ScaledCoefficients | Src/dsp_dft.c:73-84 | bin 0 of both parts ends up divided by n; the other real bins are divided by n/2 and the other imaginary bins by -n/2 |
| Dft.ScaleBin | Src/dsp_dft.c:77-84 | the locals the loop body computes for bin k are the k-th scaled coefficients |
| Dft.Idft | Src/dsp_dft.c:63-92 | every output sample i < n is the synthesis of the n/2 scaled bins; samples at or above n are untouched; the coefficient arrays are not modified |
| Dft.IdftSampleZero | Src/dsp_dft.c:73-90 | given cos 0 = 1, output sample 0 is Re X[0]/n plus the sum of the other real coefficients divided by n/2 |
| Dft.Magnitude | Src/dsp_dft.c:109 | the magnitude of one bin, sqrt(Re^2 + Im^2) with the sqrt passed in |
| Dft.DftMagnitude | Src/dsp_dft.c:104-111 | mag[i] = sqrt(Re X[i]^2 + Im X[i]^2) of the inputs as they were before the call, for i < len; nothing else is written; mag may be the same array as rex or imx, since cell i is read before it is written |
| Dft.RexAfter | Src/dsp_dft.c:147-148 | Re X[k] after the conversion is never 0: a zero becomes 10^-20 and any other value is kept |
| Dft.PhaseAsWritten | Src/dsp_dft.c:147-158 | the phase after one bin, from the cell's prior value: for a nonzero Re X[k] it is the prior value shifted by -pi, 0 or +pi; by 0 when Re X[k] > 0; for Re X[k] < 0 it decreases exactly when Im X[k] < 0 |
| Dft.PhaseAsWrittenShifts | Src/dsp_dft.c:147-158 | the phase is independent of the buffer's prior value only when Re X[k] was 0; otherwise the prior value is shifted by -pi, 0 or +pi, by the same amount whatever it was, and by 0 for positive Re X[k] |
| Dft.ConvertBin | Src/dsp_dft.c:143-158 | for one bin: the magnitude comes from the original Re X[k]; a zero Re X[k] becomes 10^-20 in place, so no zero remains; the phase follows the as-written rules; other cells are untouched |
| Dft.Rect2Polar | Src/dsp_dft.c:136-160 | for every k < len: magnitude from the original Re X[k], Re X[k] replaced by 10^-20 when zero and otherwise kept, phase by the as-written rules; nothing at or above len changes |
| Dft.PhaseIntended | Src/dsp_dft.c:121-125 | the phase the doc comment promises: arctan(Im/Re) with Re = 0 replaced by 10^-20, shifted by -pi or +pi when Re < 0 as the code's quadrant rules do (Src/dsp_dft.c:152-158) |
| Dft.PhaseAsWrittenMissesBase | Src/dsp_dft.c:147-158 | for a nonzero Re X[k] the code agrees with the intended phase exactly when the buffer already held atan(Im/Re), in both directions; for a zero Re X[k] it always agrees |
| Dft.PhaseFinding | Src/dsp_dft.c:147-150 | Re = Im = 1 on a zeroed phase buffer yields phase 0, where atan(1) is intended |
| Dft.ConvertBinCorrected | Src/dsp_dft.c:143-158 | one bin of the corrected conversion: the magnitude as before, the intended phase, Re X only read |
| Dft.Rect2PolarCorrected | Src/dsp_dft.c:136-160 | the corrected conversion: every phase is the arctangent with the quadrant shift; the caller's Re X is left intact |
| DftLegacy.Dft | src/dsp_dft.c:37-51 | all n/2 bins of both outputs are zeroed first, so each bin k < n/2 is exactly the correlation sums; nothing at or above n/2 is written |
| DftLegacy.RescaledRe | src/dsp_dft.c:69-73 | the rescaled Re X keeps its length; multiplying back by 2 (bin 0) or n/2 (bins 1..n/2-1) recovers the input; later bins are unchanged |
| DftLegacy.RescaledIm | src/dsp_dft.c:70-74 | the rescaled Im X keeps its length; multiplying back by -2 (bin 0) or -n/2 (bins 1..n/2-1) recovers the input; later bins are unchanged |
| DftLegacy.PrepareCoefficients | src/dsp_dft.c:69-75 | in the caller's arrays, bin 0 is divided by 2 and by -2 unconditionally, bins 1..n/2-1 by n/2 and by -n/2, and the rest is left alone |
| DftLegacy.SynthesiseAll | src/dsp_dft.c:77-86 | the n output samples are zeroed, then each is the synthesis over all n bins of the coefficient arrays; later samples are untouched |
| DftLegacy.Idft | src/dsp_dft.c:63-87 | the coefficients are rescaled in place; then every sample i < n is the synthesis over all n bins, so both coefficient arrays must cover n entries (CoefficientsCover) |
| DftLegacy.RescaleNotIdempotent | src/dsp_dft.c:69-70 | a second call on the same buffers divides bin 0 again, leaving a quarter of it |
| DftLegacy.HarnessBuffersTooShort | src/dsp_dft.c:81-84 | for every n >= 1, coefficient arrays of n/2 entries, as the test harness allocates them (test/src/main.c:156-160, 185), do not satisfy Idft's precondition CoefficientsCover |
| DftLegacy.DcDivisorDiffers | src/dsp_dft.c:69-74 | the bins 1..n/2-1 agree with the current inverse's scaling; bin 0 agrees only when n = 2 or Re X[0] = 0 |
| DftLegacy.DcDivisorExample | src/dsp_dft.c:69 | n = 8 and Re X[0] = 8 give 4, where the current inverse gives 1 |
| Cdft.Step | Src/dsp_cdft.c:53-61 | one inner iteration as written: a purely real sample (xi = 0) leaves the imaginary part where it was |
| Cdft.Accumulate | Src/dsp_cdft.c:50-62 | the inner loop as written over samples i < upto of bin k, from a zeroed bin, one Step per sample |
| Cdft.StepIntended | Src/dsp_cdft.c:53-61 | one inner iteration as intended: the bin gains x[i] times (SR + j*SI), the complex product the doc comment's formula gives |
| Cdft.AccumulateIntended | Src/dsp_cdft.c:50-62 | the intended inner loop over samples i < upto of bin k, from a zeroed bin, one StepIntended per sample |
| Cdft.CommaGuard | Src/dsp_cdft.c:48 | evaluating the guard zeroes both output cells at k and yields 0 |
| Cdft.Cdft | Src/dsp_cdft.c:42-64 | a call leaves Re X[0] = Im X[0] = 0 and every other output cell unchanged, whatever n is |
| Cdft.ImagIgnoresReal | Src/dsp_cdft.c:61 | the imaginary output does not depend on the real input |
| Cdft.AccumulateDc | Src/dsp_cdft.c:53-61 | for bin 0 the body would give the un-normalised sum of the real input and minus the sum of the imaginary input |
| Cdft.RealPartsAgree | Src/dsp_cdft.c:60 | over a whole bin the as-written and intended real parts agree; this holds because the real update at :60 is textually the intended one, so it records that the real half is correct rather than an independent result |
| Cdft.IntendedDc | Src/dsp_cdft.c:53-61 | bin 0 of the intended transform is the sum of the complex input samples |
| Cdft.ImagUpdateFinding | Src/dsp_cdft.c:61 | the one-sample signal 0 + 1j gives Im X[0] = -1 as written and +1 as intended |
| Cdft.CorrelateComplexBin | Src/dsp_cdft.c:50-62 | the intended inner loop accumulates bin k over all n samples; no other cell changes |
| Cdft.CdftCorrected | Src/dsp_cdft.c:48-63 | the loop as intended: every bin k < n is zeroed and then accumulated; cells at or above n are untouched |
| Filter.Hamming | Src/dsp_filter.c:87-90 | wherever cos lies in [-1, 1], the Hamming window lies in [0.08, 1] |
| Filter.Blackman | Src/dsp_filter.c:99-103 | wherever cos lies in [-1, 1] and obeys the double-angle rule, the Blackman window lies in [0, 1] |
| Filter.WindowAt | Src/dsp_filter.c:68-72 | the window factor of tap i: Hamming(i, len) for a NULL argument, otherwise the callback applied to i and len |
| Filter.Sinc | Src/dsp_filter.c:65 | the unwindowed value sin(2*pi*c*offset)/offset of an off-centre tap, 0 exactly where the sin is 0 |
| Filter.Offset | Src/dsp_filter.c:57 | a tap's offset lies in [-(len/2), len-1-len/2] and is 0 exactly at the centre tap len/2 |
| Filter.Tap | Src/dsp_filter.c:57-73 | the centre tap len/2 is 2*pi*c; any other tap is 0 exactly when its window factor or its sinc value is 0 |
| Filter.LowPassWinSinc | Src/dsp_filter.c:44-77 | exactly output[0..len) is written; tap i is 2*pi*c at the centre and sin(2*pi*c*offset)/offset times the window elsewhere |
| Filter.CentreTapUnwindowed | Src/dsp_filter.c:60-61 | the centre tap is 2*pi*c whatever window is passed |
| Filter.DefaultWindowIsHamming | Src/dsp_filter.c:68-70 | with a NULL window argument, an off-centre tap is weighted by the Hamming window |
| Filter.CallbackGetsAbsoluteIndex | Src/dsp_filter.c:71-72 | a callback receives the absolute tap index and the length, not the offset |
| Filter.HammingAtZero | Src/dsp_filter.c:87-90 | given cos 0 = 1, the Hamming window is 0.08 at index 0 |
| Filter.BlackmanAtZero | Src/dsp_filter.c:99-103 | given cos 0 = 1, the Blackman window is 0 at index 0 |
| Filter.CentreTapExample | Src/dsp_filter.c:50-61 | 48 kHz sampling, a 10 kHz cutoff and 29 taps put 2*pi*10/48 in tap 14 |
| Convolution.AccumulateRow | src/dsp_convolution.c:32-34 | row i adds x[i]*h[t-i] to every cell t that row reaches and leaves all others unchanged |
| Convolution.Convolve | src/dsp_convolution.c:22-36 | each cell t < n+m ends as the sum of x[i]*h[j] over i + j = t; nothing at or beyond n+m changes; only dest is written |
| Convolution.Vanishes | src/dsp_convolution.c:31-33 | no row reaches an index at or above its start plus m |
| Convolution.LastIsZero | src/dsp_convolution.c:28-33 | dest[n+m-1] always ends as 0 |
| Convolution.EmptyKernel | src/dsp_convolution.c:32 | an empty impulse response contributes nothing |
| Convolution.EmptyInputs | src/dsp_convolution.c:28-32 | with n = 0 or m = 0 the output is all zeros |
| Convolution.PrefixOnly | src/dsp_convolution.c:31 | the sum over the first r rows reads only the first r input samples |
| Convolution.ExtendKernel | src/dsp_convolution.c:33 | one more impulse-response sample adds exactly one product at each index it reaches |
| Convolution.Commutative | src/dsp_convolution.c:33 | swapping signal and impulse response, with their lengths, gives the same output at every index |
| Stat.SigMean | Src/dsp_stat.c:19-30 | the mean is the sum of the first len samples divided by len, for len > 0; the signal is only read |
| Stat.SigVariance | Src/dsp_stat.c:36-47 | the variance is the sum of squared deviations from the given mean divided by len - 1, for len >= 2, and is never negative |
| Stat.SquaredDeviationsNonNegative | Src/dsp_stat.c:41-43 | the accumulated squared deviations are never negative |
| Stat.SumConstant | Src/dsp_stat.c:24-26 | the mean loop sums n copies of c to n * c |
| Stat.MeanOfConstant | Src/dsp_stat.c:24-28 | the mean of a constant signal is that constant |
| Stat.NoDeviation | Src/dsp_stat.c:41-43 | a constant signal has no squared deviation from itself |
| Stat.VarianceOfConstant | Src/dsp_stat.c:41-46 | the variance of a constant signal about its own mean is 0 |
| Stat.SigStdDev | Src/dsp_stat.c:53-56 | where sqrt is a square root of the given variance, the result squares back to that variance |
| Stat.StdDevOfConstant | Src/dsp_stat.c:53-56 | chaining the three routines on a constant signal gives sqrt(0), which is 0 for any sqrt with sqrt(0) = 0 |
| SignalStat.SignalMean | src/signal_stat.c:19-30 | the sum of the first len samples divided by len, for len > 0 |
| SignalStat.SignalVariance | src/signal_stat.c:36-47 | the squared deviations divided by len - 1, for len >= 2, and never negative |
| SignalStat.SignalStdDev | src/signal_stat.c:53-56 | the same as Stat.SigStdDev: the result squares back to the variance wherever sqrt is a square root of it |
| TestPaths.LastSlashBelow | test/src/main.c:66 | a backward scan from hi - 1 stops at the last '/' below hi; no '/' lies between it and hi; -1 when there is none |
| TestPaths.LastSlashPrefix | test/src/main.c:66 | the scan reads only the characters below its start |
| TestPaths.LastSlashCount | test/src/main.c:65-66 | the scan finds a '/' exactly when one exists below its start, and the part below the stop holds one '/' fewer |
| TestPaths.TestDirEnd | test/src/main.c:61-67 | the terminator goes on a '/' inside the path |
| TestPaths.StripsTwoComponents | test/src/main.c:61-67 | the path is the kept part, '/', a component, '/', and a last component, where neither component holds a '/' |
| TestPaths.ScanBack | test/src/main.c:66 | the inner while loop stops exactly at the last '/' at or below its start, which must exist |
| TestPaths.CopyTerminated | test/src/main.c:56-58 | test_abs_path is a new buffer holding the first full_path_len characters and a NUL |
| TestPaths.TestAbsPath | test/src/main.c:56-67 | the new buffer is the path plus NUL, with a NUL written over the next-to-last '/'; the path must hold two '/' |
| TestPaths.TruncatedStringLength | test/src/main.c:67 | with no NUL in the path, the resulting C string is the path up to the next-to-last '/' |
| TestPaths.StrCopy | test/src/main.c:292-294 | strcpy of a C string (no NUL inside) writes its characters and a NUL at the offset and nothing else |
| TestPaths.PreparePath | test/src/main.c:285-297 | for two C strings, a new buffer of strlen(test_path) + strlen(rel_path) + 2 characters holding test_path, '/', rel_path and NUL, with no NUL before the last cell |
| TestPaths.JoinSplits | test/src/main.c:290-294 | the joined path splits back into test_path, '/' and rel_path at strlen(test_path); without NULs in the parts its strlen is strlen(test_path) + strlen(rel_path) + 1 |
| TestPaths.DoubledSlash | test/src/main.c:293 | a rel_path that starts with '/' gives "//" |
| TestPaths.JoinFromSeparator | test/src/main.c:293-294 | from strlen(test_path) on, the joined path reads '/' and then rel_path |
| TestPaths.HarnessDoubledSlash | test/src/main.c:188 | the harness's "/dat/dft/idft_output_signal.dat" produces "//dat" |

## Left out

- The <math.h> functions have no values beyond sin 0 = 0 and cos 0 = 1. Numeric accuracy, the idft(dft(x)) round trip, kernel symmetry and Parseval-style checks depend on their real behaviour and on IEEE rounding, so they are not modelled. NaN and infinities are not modelled either.
- Division by zero is never reached in the model. The sites in the C code become preconditions: len = 0 in the mean, len <= 1 in the variance, a zero sample frequency, and a zero filter length.
- Filter.LowPassWinSinc: the cutoff ratio's documented range 0 < c < 0.5 is a precondition. The C code does not check it.
- Filter.Offset: the C code computes the offset as (int)i - filter_len/2 in unsigned arithmetic and converts the result to int. The model uses the mathematical difference, which is what the conversion yields for lengths that fit an int.
- Stat.SigVariance: an unsigned len - 1 that wraps for len = 0 is excluded by the precondition len >= 2.
- TestPaths.PreparePath: the `int` lengths are unbounded, so overflow on strings longer than INT_MAX is not modelled.
- TestPaths.PreparePath: a failed allocation is not modelled, and neither is the caller's check_mem_alloc.
- TestPaths.TestAbsPath: readlink is not modelled. The path and its length are parameters, so a failing readlink (length -1) is not modelled.
- The filter's band-pass routine is declared in Inc/dsp_filter.h with no implementation in any file. No high-pass routine exists. Neither is modelled.
- dsp_running_sum is called by the harness but defined in no file. It is not part of this model.
- The rest of the harness is not modelled: create_dat_file, printf and file output, malloc/free, and the test/main.c driver.
- In several places the model factors code into helpers: the inner loops of the DFTs and of the convolution, one bin of rect2polar, and the scaling at the top of dsp_idft's loop. Each helper runs the same statements in the same order on the same cells.
- Aliased buffers are not modelled except in Dft.DftMagnitude. The other routines that take several arrays require them to be distinct: Fourier.CorrelateBin, Dft.Dft, Dft.Idft, Dft.ConvertBin, Dft.Rect2Polar, DftLegacy.Dft, DftLegacy.PrepareCoefficients, DftLegacy.SynthesiseAll, DftLegacy.Idft, Cdft.CommaGuard, Cdft.Cdft, Convolution.AccumulateRow and Convolution.Convolve. A C call that passes the same buffer as input and output, where later reads see earlier writes, is not covered.
- SignalStat: the mean and variance call the Stat methods instead of repeating their loops, because src/signal_stat.c is a line-for-line copy of Src/dsp_stat.c. The sig_val_t and sig_len_t types are defined in no file; they are modelled like dsp_val_t and the size type.
- Stat.SigStdDev and SignalStat.SignalStdDev: a single sqrt call. Their contracts only relate the result to the variance where the sqrt passed in is a square root, because nothing else is known about sqrt.

## Findings

| source | as written | input that shows it | evidently intended | confidence | as-written member | corrected member |
|---|---|---|---|---|---|---|
| Src/dsp_dft.c:147-150 | the phase is assigned atan(Im/Re) only when Re X[k] is 0; otherwise only the caller's prior value is shifted | Re X[k] = Im X[k] = 1 with a zeroed phase buffer gives phase 0 | phase = atan(Im/Re) for every bin, then the quadrant shift | high, not executed | Dft.PhaseFinding | Dft.Rect2PolarCorrected |
| Src/dsp_cdft.c:48 | the guard is a comma expression whose value is the 0 it assigns, so the loop body never runs | any n >= 1: only bin 0 is written, and it is 0 | guard k < n, with the outputs at k zeroed before accumulating | high, not executed | Cdft.Cdft | Cdft.CdftCorrected |
| Src/dsp_cdft.c:61 | Im X[k] += xi*SI - xi*SR uses only the imaginary input | n = 1, input 0 + 1j: Im X[0] = -1 | Im X[k] += xr*SI + xi*SR (the complex product), giving +1 | medium, not executed | Cdft.ImagUpdateFinding | Cdft.IntendedDc |
| src/dsp_dft.c:81-84 | the synthesis reads n coefficients, but the harness passes buffers of n/2 | n = 2 with coefficient buffers of length 1 reads index 1 (CoefficientsCover fails) | synthesise from the n/2 bins the forward transform produced | high, not executed | DftLegacy.HarnessBuffersTooShort | Dft.Idft |
| src/dsp_dft.c:69 | Re X[0] is halved before synthesis | n = 8, Re X[0] = 8 gives 4 | Re X[0] divided by n, giving 1 | medium, not executed | DftLegacy.DcDivisorExample | Dft.ScaledCoefficients |

# Digital cross-correlator core, modelled in Dafny

The firmware acquires ARRAYSIZE = 4096 ADC samples into `data[]` through a
ping-pong uDMA channel whose two halves (primary and alternate) each move
ADC_BUF_SIZE = 1024 samples. It builds a 0/1 reference square wave and
correlates the samples against it in the time domain. It repeats this for
`samplesNumber` runs and publishes the truncated average of the per-run
peaks to the host GUI.

This project models the three pieces of integer logic in `main.c` and
proves their properties:

- `wave.dfy` (module `AnalyzingWave`): `createAnalyzingWave` as a loop that
  writes an array in place. It is proved equal to a closed-form square wave
  (`SquareWave`): sample `i` is 1 exactly when `i / highValues` is even.
  Lemmas show that every run of `highValues` samples is constant and that
  neighbouring samples differ exactly at run boundaries.
- `correlation.dfy` (module `CrossCorrelation`): `crossCorrelationV4` as a
  nested loop over two read-only arrays. It is proved equal to `Peak`, a pure
  specification over the overlap sums `Sum1(i)` and `Sum2(i)`. The sums are
  `uint32_t`, so the model reduces them modulo 2^32 (`Wrap32`). The test
  `sum1 - sum2 > 0` is unsigned, so it holds exactly when `sum1 != sum2`.
  `sum2` is therefore chosen only when it equals `sum1`, and the result is the
  maximum of 0 and every `sum1(i)`. Lemmas bound the sums below 2^32 for a 0/1
  wave (so nothing wraps), give the all-zero and exact-match cases, and show a
  case where a larger `sum2` is ignored.
- `acquisition.dfy` (module `Acquisition`): `ADCseq0Handler` as the class
  `Controller`. It holds the two static counters `numTransfer` and
  `numTimesInt` and a log of the hardware calls it makes: re-arming a DMA half
  at an offset, disabling the timer, disabling the uDMA. Each call is proved
  equal to the pure transition `Step`, which keeps
  `numTransfer + numTimesInt == total + 1`. Lemmas about `Run` (several events
  in a row) prove the following:
  - one acquisition takes `total - 1` events when `total >= 3`;
  - re-arming happens only while three or more segments remain;
  - the halves alternate;
  - the timer and the uDMA are stopped only on the last event, after which the
    counters are back at their initial values;
  - with the two initial destinations, the re-armed segments tile the buffer
    without overlap.
- `run.dfy` (module `RunController`): the batch loop in `main`. It builds the
  wave, correlates each acquisition, accumulates the peaks in a wrapping
  `uint32_t` and divides by `samplesNumber`. Lemmas show that the average is
  the true truncated mean, between the smallest and the largest peak,
  whenever the sum cannot wrap.
- `machine.dfy` (module `Machine`): the `uint8_t`/`uint16_t`/`uint32_t`
  ranges, ARRAYSIZE, ADC_BUF_SIZE, and arithmetic helper lemmas.

Points where the code's behaviour is easy to misread, and how the model
follows it:

- The test `sum1 - sum2 > 0` (main.c:99) compares `uint32_t` values, so it
  holds whenever `sum1 != sum2`, not only when `sum1` is larger. `sum1` is
  therefore kept unless the two sums are equal, and a larger `sum2` never
  raises the peak (`UnsignedDifference`, `LargerSum2IsIgnored`).
- The `numTransfer == 2` test (main.c:143) is a separate `if` after the
  re-arming branch, not an `else`. An event that re-arms and brings
  `numTransfer` from 3 to 2 falls straight through to 1, so with
  ARRAYSIZE = 4096 the counters go (4, 1), (3, 2), (1, 4) and back to (4, 1):
  one acquisition takes three events (`FourSegmentTrace`, `AcquisitionCycle`).
- `createAnalyzingWave` computes `p % highValues` (main.c:70) with no guard
  against `highValues == 0`, which is undefined in C. The model makes
  `highValues >= 1` a precondition.
- The handler has no idle state: every completion event advances the
  counters, whether or not a run is in progress.

## Model

| member | source | states |
|---|---|---|
| `AnalyzingWave.CreateAnalyzingWave` | main.c:59-74 | given `highValues >= 1` (the code has no guard for 0 at line 70), the loop writes all of `wave[0..ARRAYSIZE)` and leaves it equal to the closed form: 1 exactly when `i / highValues` is even |
| `AnalyzingWave.WaveIsBinary` | main.c:64-69 | the wave starts high and holds only 0 and 1 |
| `AnalyzingWave.RunIsConstant` | main.c:64-73 | every sample of run k (indices k*highValues up to (k+1)*highValues, the last run possibly cut short) is 1 for even k and 0 for odd k |
| `AnalyzingWave.FlipsExactlyAtRunStarts` | main.c:70-72 | neighbouring samples differ if and only if the second index is a multiple of `highValues`, so the wave flips after exactly `highValues` samples |
| `AnalyzingWave.RunNumberStep` | main.c:70-71 | the counter of completed runs goes up by one exactly when `p % highValues == 0`, and never exceeds `p - 1` (so the `uint16_t` counter cannot overflow) |
| `CrossCorrelation.PeakUpTo` | main.c:92-105 | after m outer steps the running maximum is at least every wrapped `sum1(i)` with i < m, and equals one of them or 0 |
| `CrossCorrelation.UnsignedDifference` | main.c:99-101 | on `uint32_t` operands `sum1 - sum2 > 0` holds exactly when `sum1 != sum2` |
| `CrossCorrelation.CrossCorrelationV4` | main.c:82-109 | every index `j + ARRAYSIZE-1-dec` and `j + inc` is in bounds (`inc` wraps only after its last use), and the result equals `Peak`: the maximum of 0 and every wrapped `sum1(i)`, with `sum2` chosen only when equal to `sum1` |
| `CrossCorrelation.OverlapBounds` | main.c:93-95 | with a 0/1 wave and samples of at most M, each partial overlap of k terms lies in [0, M*k] |
| `CrossCorrelation.SumsFitIn32Bits` | main.c:84-95 | with a 0/1 wave and 16-bit samples both sums are at most ARRAYSIZE*65535 < 2^32, so they never wrap |
| `CrossCorrelation.PeakIsLargestSum1` | main.c:92-105 | without wrap-around the result is at least every `sum1(i)` and equals one of them or 0 |
| `CrossCorrelation.PeakAtMost` | main.c:92-108 | samples of at most M against a 0/1 wave give a peak of at most N*M |
| `CrossCorrelation.ZeroDataZeroPeak` | main.c:84-108 | all-zero samples give a peak of 0 for any wave |
| `CrossCorrelation.Sum2IsMirror` | main.c:94-95 | `sum2` over (data, wave) is `sum1` over (wave, data) |
| `CrossCorrelation.ZeroLagSumsAgree` | main.c:94-95 | at full overlap (i = N-1) the two sums are the same inner product |
| `CrossCorrelation.ExactMatchPeaksAtOnesCount` | main.c:92-105 | the wave [1,1,0,0,1,1,0,0] correlated with itself gives 4 at zero lag, and 4 is the peak |
| `CrossCorrelation.LargerSum2IsIgnored` | main.c:99-103 | a `sum2` larger than every `sum1` does not raise the peak: samples [0,1] against wave [1,0] give `sum2(0) = 1` but a peak of 0 |
| `Acquisition.Step` | main.c:121-159 | from counters with `numTransfer + numTimesInt == total + 1`, one event keeps that invariant; it moves `(n, t)` to `(n - 1, t + 1)` when `n >= 4`, to `(1, total)` when `n` is 3 or 2 (the fall-through), and to `(total, 1)` when `n == 1`; its calls are exactly one re-arm when `n >= 3` (the primary half for odd `t`, at offset `1024 + 1024*t`, ending within the buffer), none when `n == 2`, and exactly the timer disable then the uDMA disable when `n == 1` |
| `Acquisition.Run` | main.c:121-159 | any number of consecutive events keeps the counter invariant |
| `Acquisition.ScheduleIsHandlerFormula` | main.c:123-140 | the k-th entry of the closed-form schedule is exactly what the handler re-arms at completion count k+1: the primary half for odd counts, at offset `1024 + 1024*(k+1)`; the schedule has `total - 2` entries (none when `total <= 2`) |
| `Acquisition.RunBeforeLastArm` | main.c:123-140 | from the initial counters, k events with `k <= total - 3` leave `(total - k, k + 1)` and have re-armed segments 2 to k+1, alternating halves and starting with the primary |
| `Acquisition.AcquisitionCycle` | main.c:123-157 | one acquisition from `(total, 1)` takes `total - 1` events (`total` when `total <= 2`); it re-arms exactly the scheduled segments, stops the timer and the uDMA on its last event and not before, and ends back at `(total, 1)`, ready for the next run |
| `Acquisition.LongAcquisition` | main.c:123-157 | for `total >= 3`, after the last re-arm the `== 2` branch falls through to 1, and the next event is terminal |
| `Acquisition.ShortAcquisition` | main.c:143-157 | with one or two segments nothing is re-armed: the acquisition's only calls are the terminal disables of the timer and the uDMA, it ends back at `(total, 1)`, and with two segments the two initial destinations (offsets 0 and 1024) are all the segments |
| `Acquisition.SegmentsTileBuffer` | main.c:123-140 | the initial destinations (offsets 0 and 1024, main.c:264-271) plus the re-armed segments are exactly segment k at offset 1024*k for k < total: in order, without overlap, each ending within the buffer, primary for even k |
| `Acquisition.FourSegmentTrace` | main.c:123-157 | with ARRAYSIZE/1024 = 4: (4,1) re-arms the primary half at 2048 and gives (3,2); the next event re-arms the alternate half at 3072 and falls through to (1,4); the third disables the timer and the uDMA and resets to (4,1) |
| `Acquisition.Controller.constructor` | main.c:35-36 | the counters start at `(ARRAYSIZE/1024, 1)` with no hardware calls made |
| `Acquisition.Controller.OnSegmentComplete` | main.c:121-159 | the handler keeps the counter invariant, sets the counters to those of `Step`, and appends exactly `Step`'s hardware calls to the log |
| `RunController.RunBatch` | main.c:186-200 | builds the wave once, correlates every run, and publishes the sum of the peaks modulo 2^32 divided (truncating) by `samplesNumber`, which must be at least 1 because line 198 divides by it unguarded |
| `RunController.TotalBounds` | main.c:196 | n peaks, each in [lo, hi], sum to a value in [n*lo, n*hi] |
| `RunController.AverageWithinPeaks` | main.c:196-198 | when n*hi < 2^32 the sum does not wrap, and the average lies between the smallest and the largest peak |
| `RunController.BatchAverageIsTrueMean` | main.c:190-198 | if no sample exceeds M and samplesNumber*ARRAYSIZE*M < 2^32, the sum never wraps and the average is the true truncated mean, at most ARRAYSIZE*M |

## Left out

- `setupDMA`, `setupADC`, `setupTimer` and the clock and peripheral enables in `main` (main.c:161-180, 211-382) are register configuration through TivaWare driver calls whose source is not part of this model. Only the two initial DMA destinations (offsets 0 and 1024, main.c:264-271) are kept, as `InitialPrimaryOffset` and `InitialAlternateOffset`.
- The hardware calls made by `ADCseq0Handler` (`uDMAChannelTransferSet`, `uDMAChannelEnable`, `TimerDisable`, `uDMADisable`) are recorded as entries of an abstract log (`HwCall`). Their effect on `data[]` is not modelled. Each `RunBatch` run instead takes the buffer contents as a parameter.
- The busy-wait `MAP_SysCtlDelay(40945)` before the terminal disable (main.c:150) and the one in the main loop (main.c:183) are timing only.
- The `double` arithmetic and `round` that turn `analyzingFreq` into `highValues` (main.c:60), and `sampling_rate` (main.c:34), are floating point. `highValues` is taken as a given `uint16_t` of at least 1.
- The interplay between the interrupt handler and the foreground loop is left out. `main` calls `crossCorrelationV4` right after `TimerEnable`, without waiting for the handler's terminal event (main.c:194-196), which is a timing and concurrency question. The handler is modelled as a sequential state machine driven by one event at a time.
- The GUI-driven globals `buttonCount`, `runXCorr` and `analyzingFreq` (main.c:44-53, 182-202) are host I/O. `RunBatch` models one press of the button.
- `Acquisition.Controller` keeps `numTransfer` and `numTimesInt` as unbounded integers, not `uint16_t`. The invariant keeps them in [1, total + 1], so they cannot wrap for any realistic ARRAYSIZE.
- `CrossCorrelation.CrossCorrelationV4` models the products `dataWave[j] * analyzingWave[k]` without `int` overflow. A `uint16_t` times a `uint8_t` is at most 65535*255 < 2^31, so no overflow can occur.
- `Acquisition.ShortAcquisition`: with a single segment (`total == 1`) the alternate half's initial destination (offset 1024, main.c:270) lies past the end of the buffer, so the model does not claim that the initial destinations fit the buffer then; `SegmentsTileBuffer` needs at least two segments, and the firmware has four.

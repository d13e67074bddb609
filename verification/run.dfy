/**
 * One batch of correlation runs as the foreground loop performs it when the
 * host presses the button: build the reference wave, correlate each
 * acquisition against it, accumulate the peaks in a `uint32_t` and publish
 * their truncated average.
 */
module RunController {
  import opened Machine
  import opened AnalyzingWave
  import opened CrossCorrelation

  /** Σ s, summed from the front. */
  function TotalOf(s: seq<int>): int
  {
    if |s| == 0 then 0 else TotalOf(s[..|s| - 1]) + s[|s| - 1]
  }

  /** Adding the next peak to the wrapped running sum gives the wrapped total of one more peak. */
  lemma AccumulateStep(peaks: seq<U32>, i: nat, sum: int, peak: int)
    requires i < |peaks| && peak == peaks[i] && sum == Wrap32(TotalOf(peaks[..i]))
    ensures Wrap32(peak + sum) == Wrap32(TotalOf(peaks[..i + 1]))
  {
    assert peaks[..i + 1][..i] == peaks[..i];
    WrapAdd(peaks[i], TotalOf(peaks[..i]));
  }

  /** The peak correlation of every acquisition against the reference wave. */
  function BatchPeaks(acquisitions: seq<seq<U16>>, highValues: nat): (peaks: seq<U32>)
    requires highValues >= 1
    requires forall r :: 0 <= r < |acquisitions| ==> |acquisitions[r]| == ArraySize
    ensures |peaks| == |acquisitions|
  {
    seq(|acquisitions|, r requires 0 <= r < |acquisitions| =>
      Peak(acquisitions[r], SquareWave(highValues, ArraySize)))
  }

  /**
   * The batch loop of the foreground task. `acquisitions[r]` is what the DMA
   * has left in the sample buffer when run r is correlated. The running sum
   * wraps modulo 2^32; the division truncates.
   */
  method RunBatch(highValues: U16, acquisitions: seq<seq<U16>>, samplesNumber: U8) returns (averageValue: U32)
    requires highValues >= 1
    requires samplesNumber >= 1 && |acquisitions| == samplesNumber
    requires forall r :: 0 <= r < |acquisitions| ==> |acquisitions[r]| == ArraySize
    ensures averageValue == Wrap32(TotalOf(BatchPeaks(acquisitions, highValues))) / samplesNumber
  {
    var analyzingWave := new U8[ArraySize];
    CreateAnalyzingWave(highValues, analyzingWave);
    ghost var peaks := BatchPeaks(acquisitions, highValues);
    var sum: U32 := 0;
    var i: U8 := 0;
    while i < samplesNumber
      invariant 0 <= i <= samplesNumber
      invariant analyzingWave[..] == SquareWave(highValues, ArraySize)
      invariant sum == Wrap32(TotalOf(peaks[..i]))
    {
      var data := new U16[ArraySize](k requires 0 <= k < ArraySize => acquisitions[i][k]);
      assert data[..] == acquisitions[i];
      var peak := CrossCorrelationV4(data, analyzingWave);
      assert peak == peaks[i];
      AccumulateStep(peaks, i, sum, peak);
      sum := Wrap32(peak + sum);
      i := i + 1;
    }
    assert peaks[..samplesNumber] == peaks;
    QuotientAtMost(sum, samplesNumber);
    averageValue := sum / samplesNumber;
  }

  /** n peaks that each lie in [lo, hi] total between n*lo and n*hi. */
  lemma {:induction false} TotalBounds(peaks: seq<int>, lo: int, hi: int)
    requires forall r :: 0 <= r < |peaks| ==> lo <= peaks[r] <= hi
    ensures |peaks| * lo <= TotalOf(peaks) <= |peaks| * hi
  {
    if |peaks| > 0 {
      TotalBounds(peaks[..|peaks| - 1], lo, hi);
      assert |peaks| * lo == (|peaks| - 1) * lo + lo;
      assert |peaks| * hi == (|peaks| - 1) * hi + hi;
    }
  }

  /**
   * When the accumulated sum cannot wrap (n peaks of at most hi with
   * n*hi < 2^32), the published average lies between the smallest and the
   * largest per-run peak.
   */
  lemma AverageWithinPeaks(peaks: seq<int>, lo: int, hi: int)
    requires |peaks| >= 1 && 0 <= lo
    requires forall r :: 0 <= r < |peaks| ==> lo <= peaks[r] <= hi
    requires |peaks| * hi < Two32
    ensures Wrap32(TotalOf(peaks)) == TotalOf(peaks)
    ensures lo <= Wrap32(TotalOf(peaks)) / |peaks| <= hi
  {
    TotalBounds(peaks, lo, hi);
    QuotientBounds(TotalOf(peaks), |peaks|, lo, hi);
  }

  /**
   * If no sample exceeds maxSample and the batch is small enough that
   * samplesNumber * ARRAYSIZE * maxSample < 2^32, the running sum never wraps
   * and the published average is the true truncated mean of the peaks, at
   * most ARRAYSIZE * maxSample.
   */
  lemma BatchAverageIsTrueMean(acquisitions: seq<seq<U16>>, highValues: nat, maxSample: nat)
    requires highValues >= 1 && |acquisitions| >= 1
    requires forall r :: 0 <= r < |acquisitions| ==> |acquisitions[r]| == ArraySize
    requires forall r, j :: 0 <= r < |acquisitions| && 0 <= j < |acquisitions[r]| ==> acquisitions[r][j] <= maxSample
    requires |acquisitions| * (ArraySize * maxSample) < Two32
    ensures Wrap32(TotalOf(BatchPeaks(acquisitions, highValues))) == TotalOf(BatchPeaks(acquisitions, highValues))
    ensures Wrap32(TotalOf(BatchPeaks(acquisitions, highValues))) / |acquisitions| <= ArraySize * maxSample
  {
    var peaks := BatchPeaks(acquisitions, highValues);
    var wave := SquareWave(highValues, ArraySize);
    WaveIsBinary(highValues, ArraySize);
    forall r | 0 <= r < |peaks|
      ensures 0 <= peaks[r] <= ArraySize * maxSample
    {
      assert SamplesAtMost(acquisitions[r], maxSample);
      PeakAtMost(acquisitions[r], wave, maxSample);
    }
    AverageWithinPeaks(peaks, 0, ArraySize * maxSample);
  }
}

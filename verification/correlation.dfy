/**
 * Time-domain cross-correlation of the acquired samples against the
 * reference wave. For every alignment `i` (lag N-1-i) two overlap sums of
 * length i+1 are formed; the result is the running maximum of the candidate
 * chosen at each alignment.
 */
module CrossCorrelation {
  import opened Machine

  /** Σ_{j<k} data[j] * wave[j + N-1-i]: the first k terms of sum1 at alignment i. */
  function Overlap1(data: seq<int>, wave: seq<int>, i: nat, k: nat): int
    requires |wave| == |data| && i < |data| && k <= i + 1
    decreases k
  {
    if k == 0 then 0
    else Overlap1(data, wave, i, k - 1) + data[k - 1] * wave[k - 1 + |data| - 1 - i]
  }

  /** Σ_{j<k} data[j + N-1-i] * wave[j]: the first k terms of sum2 at alignment i. */
  function Overlap2(data: seq<int>, wave: seq<int>, i: nat, k: nat): int
    requires |wave| == |data| && i < |data| && k <= i + 1
    decreases k
  {
    if k == 0 then 0
    else Overlap2(data, wave, i, k - 1) + data[k - 1 + |data| - 1 - i] * wave[k - 1]
  }

  /** sum1(i): the head of data against the tail of wave, over i+1 samples. */
  function Sum1(data: seq<int>, wave: seq<int>, i: nat): int
    requires |wave| == |data| && i < |data|
  {
    Overlap1(data, wave, i, i + 1)
  }

  /** sum2(i): the tail of data against the head of wave, over i+1 samples. */
  function Sum2(data: seq<int>, wave: seq<int>, i: nat): int
    requires |wave| == |data| && i < |data|
  {
    Overlap2(data, wave, i, i + 1)
  }

  /**
   * The largest of 0 and the 32-bit values of sum1 over the first m
   * alignments: what the running maximum holds after m outer steps.
   */
  function PeakUpTo(data: seq<int>, wave: seq<int>, m: nat): (r: U32)
    requires |wave| == |data| && m <= |data|
    ensures forall i :: 0 <= i < m ==> Wrap32(Sum1(data, wave, i)) <= r
    ensures r == 0 || exists i :: 0 <= i < m && r == Wrap32(Sum1(data, wave, i))
  {
    if m == 0 then 0
    else
      var prev := PeakUpTo(data, wave, m - 1);
      var s := Wrap32(Sum1(data, wave, m - 1));
      if s > prev then s else prev
  }

  /** The peak correlation over all N alignments. */
  function Peak(data: seq<int>, wave: seq<int>): U32
    requires |wave| == |data|
  {
    PeakUpTo(data, wave, |data|)
  }

  /** On `uint32_t` operands, `a - b > 0` holds exactly when a != b. */
  lemma UnsignedDifference(a: U32, b: U32)
    ensures Wrap32(a - b) > 0 <==> a != b
  {
  }

  /** One more term of each overlap, accumulated in a `uint32_t`. */
  lemma OverlapStep(data: seq<int>, wave: seq<int>, i: nat, j: nat)
    requires |wave| == |data| && j <= i < |data|
    ensures Wrap32(data[j] * wave[j + |data| - 1 - i] + Wrap32(Overlap1(data, wave, i, j)))
         == Wrap32(Overlap1(data, wave, i, j + 1))
    ensures Wrap32(data[j + |data| - 1 - i] * wave[j] + Wrap32(Overlap2(data, wave, i, j)))
         == Wrap32(Overlap2(data, wave, i, j + 1))
  {
    WrapAdd(data[j] * wave[j + |data| - 1 - i], Overlap1(data, wave, i, j));
    WrapAdd(data[j + |data| - 1 - i] * wave[j], Overlap2(data, wave, i, j));
  }

  /** One more outer step raises the running maximum to sum1(i) when that is larger. */
  lemma PeakStep(data: seq<int>, wave: seq<int>, i: nat)
    requires |wave| == |data| && i < |data|
    ensures PeakUpTo(data, wave, i + 1)
         == if Wrap32(Sum1(data, wave, i)) > PeakUpTo(data, wave, i)
            then Wrap32(Sum1(data, wave, i)) else PeakUpTo(data, wave, i)
  {
  }

  /**
   * crossCorrelationV4: the sums are kept in `uint32_t`, so they wrap modulo
   * 2^32, and `sum1 - sum2 > 0` is an unsigned test that holds exactly when
   * sum1 != sum2; sum2 is therefore only chosen when it equals sum1, and the
   * result is the maximum of 0 and every (wrapped) sum1(i).
   */
  method CrossCorrelationV4(dataWave: array<U16>, analyzingWave: array<U8>) returns (maxCorr: U32)
    requires dataWave.Length == ArraySize && analyzingWave.Length == ArraySize
    ensures maxCorr == Peak(dataWave[..], analyzingWave[..])
  {
    ghost var data, wave := dataWave[..], analyzingWave[..];
    maxCorr := 0;
    var dec: U32 := 0;
    var lastArrayIndex: U32 := ArraySize - 1;
    var inc: U32 := lastArrayIndex;
    var sum1: U32 := 0;
    var sum2: U32 := 0;
    var i: U32 := 0;
    while i < ArraySize
      invariant 0 <= i <= ArraySize
      invariant dec == i
      invariant i < ArraySize ==> inc == lastArrayIndex - i
      invariant sum1 == 0 && sum2 == 0
      invariant maxCorr == PeakUpTo(data, wave, i)
    {
      var j: U32 := 0;
      while j <= i
        invariant 0 <= j <= i + 1
        invariant sum1 == Wrap32(Overlap1(data, wave, i, j))
        invariant sum2 == Wrap32(Overlap2(data, wave, i, j))
      {
        OverlapStep(data, wave, i, j);
        sum1 := Wrap32(dataWave[j] * analyzingWave[j + ArraySize - 1 - dec] + sum1);
        sum2 := Wrap32(dataWave[j + inc] * analyzingWave[j] + sum2);
        j := j + 1;
      }
      inc := if inc == 0 then 0xFFFF_FFFF else inc - 1;  // wraps after the last step, never read
      dec := dec + 1;
      UnsignedDifference(sum1, sum2);
      PeakStep(data, wave, i);
      if Wrap32(sum1 - sum2) > 0 && sum1 > maxCorr {
        maxCorr := sum1;
      } else if Wrap32(sum1 - sum2) <= 0 && sum2 > maxCorr {
        maxCorr := sum2;
      }
      sum1, sum2 := 0, 0;
      i := i + 1;
    }
  }

  /** Every sample of the reference wave is 0 or 1. */
  predicate IsBinary(wave: seq<int>)
  {
    forall k :: 0 <= k < |wave| ==> wave[k] == 0 || wave[k] == 1
  }

  /** No sample exceeds maxSample. */
  predicate SamplesAtMost(data: seq<int>, maxSample: int)
  {
    forall j :: 0 <= j < |data| ==> data[j] <= maxSample
  }

  /** With a 0/1 wave, a partial overlap of k non-negative samples of at most maxSample lies in [0, maxSample*k]. */
  lemma {:induction false} OverlapBounds(data: seq<U16>, wave: seq<U8>, i: nat, k: nat, maxSample: nat)
    requires |wave| == |data| && i < |data| && k <= i + 1
    requires IsBinary(wave) && SamplesAtMost(data, maxSample)
    ensures 0 <= Overlap1(data, wave, i, k) <= maxSample * k
    ensures 0 <= Overlap2(data, wave, i, k) <= maxSample * k
  {
    if k > 0 {
      OverlapBounds(data, wave, i, k - 1, maxSample);
      assert wave[k - 1 + |data| - 1 - i] == 0 || wave[k - 1 + |data| - 1 - i] == 1;
      assert wave[k - 1] == 0 || wave[k - 1] == 1;
      assert data[k - 1] <= maxSample && data[k - 1 + |data| - 1 - i] <= maxSample;
      assert maxSample * k == maxSample * (k - 1) + maxSample;
    }
  }

  /**
   * Over a buffer of at most ARRAYSIZE samples and a 0/1 wave, neither sum
   * exceeds ARRAYSIZE * 65535 < 2^32, so the 32-bit sums never wrap.
   */
  lemma SumsFitIn32Bits(data: seq<U16>, wave: seq<U8>, i: nat)
    requires |wave| == |data| <= ArraySize && i < |data|
    requires IsBinary(wave)
    ensures 0 <= Sum1(data, wave, i) <= ArraySize * 0xFFFF < Two32
    ensures 0 <= Sum2(data, wave, i) <= ArraySize * 0xFFFF < Two32
    ensures Wrap32(Sum1(data, wave, i)) == Sum1(data, wave, i)
    ensures Wrap32(Sum2(data, wave, i)) == Sum2(data, wave, i)
  {
    OverlapBounds(data, wave, i, i + 1, 0xFFFF);
  }

  /**
   * Without wrap-around the peak is the plain maximum of sum1: at least every
   * sum1(i), and equal to one of them unless it is 0.
   */
  lemma PeakIsLargestSum1(data: seq<U16>, wave: seq<U8>)
    requires |wave| == |data| <= ArraySize
    requires IsBinary(wave)
    ensures forall i :: 0 <= i < |data| ==> Sum1(data, wave, i) <= Peak(data, wave)
    ensures Peak(data, wave) == 0 || exists i :: 0 <= i < |data| && Peak(data, wave) == Sum1(data, wave, i)
  {
    forall i | 0 <= i < |data|
      ensures Wrap32(Sum1(data, wave, i)) == Sum1(data, wave, i)
    {
      SumsFitIn32Bits(data, wave, i);
    }
  }

  /** Samples of at most maxSample against a 0/1 wave peak at no more than N * maxSample. */
  lemma PeakAtMost(data: seq<U16>, wave: seq<U8>, maxSample: nat)
    requires |wave| == |data| <= ArraySize
    requires IsBinary(wave) && SamplesAtMost(data, maxSample)
    ensures Peak(data, wave) <= |data| * maxSample
  {
    PeakIsLargestSum1(data, wave);
    if Peak(data, wave) != 0 {
      var i :| 0 <= i < |data| && Peak(data, wave) == Sum1(data, wave, i);
      OverlapBounds(data, wave, i, i + 1, maxSample);
      MulMonotone(i + 1, |data|, maxSample);
    }
  }

  /** Samples that are all zero make every overlap zero. */
  lemma {:induction false} ZeroDataZeroOverlap(data: seq<int>, wave: seq<int>, i: nat, k: nat)
    requires |wave| == |data| && i < |data| && k <= i + 1
    requires forall j :: 0 <= j < |data| ==> data[j] == 0
    ensures Overlap1(data, wave, i, k) == 0 && Overlap2(data, wave, i, k) == 0
  {
    if k > 0 {
      ZeroDataZeroOverlap(data, wave, i, k - 1);
    }
  }

  /** All-zero samples give a peak of 0, whatever the wave. */
  lemma ZeroDataZeroPeak(data: seq<int>, wave: seq<int>)
    requires |wave| == |data|
    requires forall j :: 0 <= j < |data| ==> data[j] == 0
    ensures Peak(data, wave) == 0
  {
    forall i | 0 <= i < |data|
      ensures Sum1(data, wave, i) == 0
    {
      ZeroDataZeroOverlap(data, wave, i, i + 1);
    }
  }

  /** sum2 is sum1 with the roles of the samples and the wave exchanged. */
  lemma {:induction false} Overlap2IsMirror(data: seq<int>, wave: seq<int>, i: nat, k: nat)
    requires |wave| == |data| && i < |data| && k <= i + 1
    ensures Overlap2(data, wave, i, k) == Overlap1(wave, data, i, k)
  {
    if k > 0 {
      Overlap2IsMirror(data, wave, i, k - 1);
    }
  }

  lemma Sum2IsMirror(data: seq<int>, wave: seq<int>, i: nat)
    requires |wave| == |data| && i < |data|
    ensures Sum2(data, wave, i) == Sum1(wave, data, i)
  {
    Overlap2IsMirror(data, wave, i, i + 1);
  }

  /** At full overlap (zero lag) both sums are the inner product of the two buffers. */
  lemma {:induction false} ZeroLagSumsAgree(data: seq<int>, wave: seq<int>, k: nat)
    requires |wave| == |data| && k <= |data|
    ensures |data| > 0 ==> Overlap1(data, wave, |data| - 1, k) == Overlap2(data, wave, |data| - 1, k)
  {
    if k > 0 {
      ZeroLagSumsAgree(data, wave, k - 1);
    }
  }

  /** The exact-match example: a wave correlated with itself peaks at its number of ones. */
  lemma ExactMatchPeaksAtOnesCount()
    ensures Sum1([1, 1, 0, 0, 1, 1, 0, 0], [1, 1, 0, 0, 1, 1, 0, 0], 7) == 4
    ensures Peak([1, 1, 0, 0, 1, 1, 0, 0], [1, 1, 0, 0, 1, 1, 0, 0]) == 4
  {
  }

  /**
   * Because the test is unsigned, a larger sum2 never raises the peak: with
   * samples [0, 1] and wave [1, 0], sum2 at the first alignment is 1 while
   * every sum1, and so the peak, is 0.
   */
  lemma LargerSum2IsIgnored()
    ensures Sum2([0, 1], [1, 0], 0) == 1
    ensures Sum1([0, 1], [1, 0], 0) == 0 && Sum1([0, 1], [1, 0], 1) == 0
    ensures Peak([0, 1], [1, 0]) == 0
  {
  }
}

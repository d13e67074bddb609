/**
 * The reference square wave the samples are correlated against: runs of
 * `highValues` ones and zeros, starting with ones.
 */
module AnalyzingWave {
  import opened Machine

  /** Sample `i` of the closed-form square wave: high exactly in the even-numbered runs. */
  function Level(highValues: nat, i: nat): (v: U8)
    requires highValues >= 1
  {
    if (i / highValues) % 2 == 0 then 1 else 0
  }

  /** The closed-form square wave of length `n`. */
  function SquareWave(highValues: nat, n: nat): (w: seq<U8>)
    requires highValues >= 1
    ensures |w| == n
  {
    seq(n, i requires 0 <= i < n => Level(highValues, i))
  }

  /**
   * Moving from sample p-1 to sample p, the run number goes up by one exactly
   * when p is a multiple of the run length.
   */
  lemma RunNumberStep(p: nat, highValues: nat)
    requires p >= 1 && highValues >= 1
    ensures p / highValues == (p - 1) / highValues + (if p % highValues == 0 then 1 else 0)
    ensures (p - 1) / highValues <= p - 1
  {
    var q, r := (p - 1) / highValues, (p - 1) % highValues;
    DivModUnique(p - 1, highValues, q, r);
    if r == highValues - 1 {
      DivModUnique(p, highValues, q + 1, 0);
    } else {
      DivModUnique(p, highValues, q, r + 1);
    }
    if q > p - 1 {
      MulAtLeast(q, highValues);
    }
  }

  /**
   * Fills `wave` with ARRAYSIZE samples: a 1 while the number of completed
   * runs is even, a 0 while it is odd, counting a run complete after every
   * `highValues` samples.
   */
  method CreateAnalyzingWave(highValues: U16, wave: array<U8>)
    requires highValues >= 1
    requires wave.Length == ArraySize
    modifies wave
    ensures wave[..] == SquareWave(highValues, ArraySize)
  {
    var counter: U16 := 0;
    var p: U16 := 1;
    while p <= ArraySize
      invariant 1 <= p <= ArraySize + 1
      invariant counter == (p - 1) / highValues
      invariant forall i :: 0 <= i < p - 1 ==> wave[i] == Level(highValues, i)
    {
      RunNumberStep(p, highValues);
      if counter % 2 == 0 {
        wave[p - 1] := 1;
      } else {
        wave[p - 1] := 0;
      }
      if p % highValues == 0 {
        counter := counter + 1;
      }
      p := p + 1;
    }
  }

  /** The wave starts high and holds only the values 0 and 1. */
  lemma WaveIsBinary(highValues: nat, n: nat)
    requires highValues >= 1
    ensures n > 0 ==> SquareWave(highValues, n)[0] == 1
    ensures forall i :: 0 <= i < n ==> SquareWave(highValues, n)[i] in {0, 1}
  {
  }

  /**
   * Every run is constant: sample i of run k (k*highValues <= i < (k+1)*highValues)
   * is 1 when k is even and 0 when k is odd; the last run may be cut short by n.
   */
  lemma {:induction false} RunIsConstant(highValues: nat, n: nat, k: nat, i: nat)
    requires highValues >= 1
    requires k * highValues <= i < (k + 1) * highValues && i < n
    ensures SquareWave(highValues, n)[i] == if k % 2 == 0 then 1 else 0
  {
    DivModUnique(i, highValues, k, i - k * highValues);
  }

  /** Two neighbouring samples differ exactly when the second one starts a new run. */
  lemma {:induction false} FlipsExactlyAtRunStarts(highValues: nat, n: nat, i: nat)
    requires highValues >= 1
    requires i + 1 < n
    ensures SquareWave(highValues, n)[i + 1] != SquareWave(highValues, n)[i]
        <==> (i + 1) % highValues == 0
  {
    RunNumberStep(i + 1, highValues);
  }
}

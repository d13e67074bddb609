/**
 * The double-buffer refill state machine run on every uDMA completion
 * interrupt. The DMA engine has two halves (primary and alternate) of
 * ADC_BUF_SIZE samples each; while more than two segments of the logical
 * buffer remain, the half that just completed is re-targeted further into
 * the buffer, and on the terminal segment the timer and the uDMA are
 * stopped and the counters reset for the next acquisition.
 */
module Acquisition {
  import opened Machine

  /** The two DMA control structures of the ADC channel. */
  datatype Half = Primary | Alternate

  /** The hardware calls the handler makes, in the order it makes them. */
  datatype HwCall =
    | Arm(half: Half, offset: nat)   // set the half's destination to data[offset..offset+ADC_BUF_SIZE) and enable it
    | DisableTimer                   // stop the sampling timer
    | DisableDma                     // stop the uDMA controller

  /** Destinations given to the two halves before the timer starts. */
  const InitialPrimaryOffset: nat := 0
  const InitialAlternateOffset: nat := SegmentSize

  /** numTransfer: segments still to complete; numTimesInt: completions seen plus one. */
  datatype Counters = Counters(numTransfer: int, numTimesInt: int)

  /** The counters' values at start-up and after every terminal segment. */
  function Initial(total: nat): Counters
  {
    Counters(total, 1)
  }

  /** The invariant the counters keep: their sum is total + 1 and a segment is always outstanding. */
  predicate Inv(total: nat, c: Counters)
  {
    c.numTransfer + c.numTimesInt == total + 1 && 1 <= c.numTransfer <= total
  }

  /** The half re-armed at completion count n: the primary one when n is odd. */
  function HalfFor(numTimesInt: int): Half
  {
    if numTimesInt % 2 != 0 then Primary else Alternate
  }

  /**
   * One completion event: the new counters and the hardware calls made. The
   * `numTransfer == 2` test follows the re-arming branch as a separate `if`,
   * so a call that brings numTransfer from 3 to 2 also falls through it.
   */
  function Step(total: nat, c: Counters): (r: (Counters, seq<HwCall>))
    requires Inv(total, c)
    ensures Inv(total, r.0)
    ensures c.numTransfer >= 4 ==> r.0 == Counters(c.numTransfer - 1, c.numTimesInt + 1)
    ensures 2 <= c.numTransfer <= 3 ==> r.0 == Counters(1, total)
    ensures c.numTransfer >= 3 ==> SegmentSize + SegmentSize * c.numTimesInt + SegmentSize <= SegmentSize * total
    ensures c.numTransfer == 1 ==> r.0 == Initial(total)
    ensures r.1 == if c.numTransfer >= 3 then [Arm(HalfFor(c.numTimesInt), SegmentSize + SegmentSize * c.numTimesInt)]
                   else if c.numTransfer == 2 then []
                   else [DisableTimer, DisableDma]
  {
    var (c1, calls) :=
      if c.numTransfer >= 3 then
        (Counters(c.numTransfer - 1, c.numTimesInt + 1),
         [Arm(HalfFor(c.numTimesInt), SegmentSize + SegmentSize * c.numTimesInt)])
      else (c, []);
    if c1.numTransfer == 2 then
      (Counters(c1.numTransfer - 1, c1.numTimesInt + 1), calls)
    else if c1.numTransfer == 1 then
      (Initial(total), calls + [DisableTimer, DisableDma])
    else
      (c1, calls)
  }

  /** The counters and the hardware calls after k completion events starting from c. */
  function Run(total: nat, c: Counters, k: nat): (r: (Counters, seq<HwCall>))
    requires Inv(total, c)
    ensures Inv(total, r.0)
  {
    if k == 0 then (c, [])
    else
      var (c1, calls1) := Run(total, c, k - 1);
      var (c2, calls2) := Step(total, c1);
      (c2, calls1 + calls2)
  }

  /** The number of completion events one acquisition of `total` segments takes. */
  function EventsPerAcquisition(total: nat): nat
  {
    if total >= 3 then total - 1 else total
  }

  /**
   * The re-arming calls of one acquisition: the k-th moves a half to segment
   * k+2 (segments 0 and 1 are the initial destinations), starting with the
   * primary half and alternating.
   */
  function ArmSchedule(total: nat): (s: seq<HwCall>)
    ensures |s| == if total >= 2 then total - 2 else 0
  {
    seq(if total >= 2 then total - 2 else 0,
        k requires 0 <= k => Arm(if k % 2 == 0 then Primary else Alternate, SegmentSize * (k + 2)))
  }

  /**
   * The closed-form schedule is the handler's own formula: its k-th entry is
   * what the handler re-arms at completion count k+1.
   */
  lemma ScheduleIsHandlerFormula(total: nat)
    ensures forall k :: 0 <= k < |ArmSchedule(total)| ==>
              ArmSchedule(total)[k] == Arm(HalfFor(k + 1), SegmentSize + SegmentSize * (k + 1))
  {
  }

  /** Every segment of one acquisition: the two initial destinations, then the re-armed ones. */
  function AllSegments(total: nat): seq<HwCall>
  {
    [Arm(Primary, InitialPrimaryOffset), Arm(Alternate, InitialAlternateOffset)] + ArmSchedule(total)
  }

  /** Before the last re-arming event, k events re-arm k segments and only count down. */
  lemma {:induction false} RunBeforeLastArm(total: nat, k: nat)
    requires total >= 3 && k <= total - 3
    ensures Run(total, Initial(total), k) == (Counters(total - k, k + 1), ArmSchedule(total)[..k])
  {
    if k > 0 {
      RunBeforeLastArm(total, k - 1);
      assert ArmSchedule(total)[..k] == ArmSchedule(total)[..k - 1] + [ArmSchedule(total)[k - 1]];
    }
  }

  /**
   * One acquisition from the initial counters: re-arming happens exactly on
   * the events where more than two segments remain, the timer and the uDMA
   * are stopped on the last event and not before, and the counters are back
   * at their initial values, so the controller is ready for the next run.
   */
  lemma AcquisitionCycle(total: nat)
    requires total >= 1
    ensures Run(total, Initial(total), EventsPerAcquisition(total))
         == (Initial(total), ArmSchedule(total) + [DisableTimer, DisableDma])
    ensures forall k :: 0 <= k < EventsPerAcquisition(total) ==> DisableTimer !in Run(total, Initial(total), k).1
  {
    if total >= 3 {
      LongAcquisition(total);
    } else {
      ShortAcquisition(total);
      assert ArmSchedule(total) + [DisableTimer, DisableDma] == [DisableTimer, DisableDma];
    }
  }

  lemma LongAcquisition(total: nat)
    requires total >= 3
    ensures Run(total, Initial(total), total - 1)
         == (Initial(total), ArmSchedule(total) + [DisableTimer, DisableDma])
    ensures forall k :: 0 <= k < total - 1 ==> DisableTimer !in Run(total, Initial(total), k).1
  {
    LastArm(total);
    var none: seq<HwCall> := [];
    assert none + [DisableTimer, DisableDma] == [DisableTimer, DisableDma];
    assert Step(total, Counters(1, total)) == (Initial(total), [DisableTimer, DisableDma]);
    forall k | 0 <= k < total - 1
      ensures DisableTimer !in Run(total, Initial(total), k).1
    {
      if k <= total - 3 {
        RunBeforeLastArm(total, k);
      }
    }
  }

  /** The event that leaves three segments re-arms the last one and falls through to (1, total). */
  lemma LastArm(total: nat)
    requires total >= 3
    ensures Run(total, Initial(total), total - 2) == (Counters(1, total), ArmSchedule(total))
  {
    RunBeforeLastArm(total, total - 3);
    LastArmStep(total);
    RunUnfold(total, Initial(total), total - 3);
  }

  /** From (3, total - 2) the event re-arms the last scheduled segment and falls through to (1, total). */
  lemma LastArmStep(total: nat)
    requires total >= 3
    ensures Step(total, Counters(3, total - 2)) == (Counters(1, total), [ArmSchedule(total)[total - 3]])
    ensures ArmSchedule(total)[..total - 3] + [ArmSchedule(total)[total - 3]] == ArmSchedule(total)
  {
    ScheduleIsHandlerFormula(total);
    var schedule := ArmSchedule(total);
    assert schedule[..total - 3] + [schedule[total - 3]] == schedule;
  }

  /** k+1 events are k events followed by one more. */
  lemma RunUnfold(total: nat, c: Counters, k: nat)
    requires Inv(total, c)
    ensures Run(total, c, k + 1)
         == (Step(total, Run(total, c, k).0).0, Run(total, c, k).1 + Step(total, Run(total, c, k).0).1)
  {
  }

  /**
   * With one or two segments nothing is re-armed, and the log of the
   * acquisition is the terminal pair of disables. With two segments the
   * initial destinations are the only segments.
   */
  lemma ShortAcquisition(total: nat)
    requires 1 <= total <= 2
    ensures Run(total, Initial(total), total) == (Initial(total), [DisableTimer, DisableDma])
    ensures ArmSchedule(total) == []
    ensures total == 2 ==> AllSegments(total) == [Arm(Primary, InitialPrimaryOffset), Arm(Alternate, InitialAlternateOffset)]
    ensures forall k :: 0 <= k < total ==> DisableTimer !in Run(total, Initial(total), k).1
  {
    var none: seq<HwCall> := [];
    assert none + none == none && none + [DisableTimer, DisableDma] == [DisableTimer, DisableDma];
    if total == 2 {
      assert Run(total, Initial(total), 1) == (Counters(1, 2), none);
    }
  }

  /**
   * The segments of one acquisition tile data[0..total*ADC_BUF_SIZE) in
   * order without overlap: segment k starts at k*ADC_BUF_SIZE, ends no later
   * than the buffer, and is written by the primary half when k is even.
   */
  lemma SegmentsTileBuffer(total: nat)
    requires total >= 2
    ensures |AllSegments(total)| == total
    ensures forall k :: 0 <= k < total ==>
              AllSegments(total)[k] == Arm(if k % 2 == 0 then Primary else Alternate, SegmentSize * k)
              && SegmentSize * k + SegmentSize <= SegmentSize * total
  {
  }

  /** With ARRAYSIZE = 4096 the handler needs three events: (3, 2), then (1, 4), then reset to (4, 1). */
  lemma FourSegmentTrace()
    ensures ArraySize / SegmentSize == 4
    ensures Step(4, Initial(4)) == (Counters(3, 2), [Arm(Primary, 2048)])
    ensures Step(4, Counters(3, 2)) == (Counters(1, 4), [Arm(Alternate, 3072)])
    ensures Step(4, Counters(1, 4)) == (Initial(4), [DisableTimer, DisableDma])
  {
    assert [] + [DisableTimer, DisableDma] == [DisableTimer, DisableDma];
  }

  /** The handler's static counters together with a log of the hardware calls it has made. */
  class Controller {
    /** ARRAYSIZE / 1024: the number of segments in one acquisition. */
    const total: nat
    var numTransfer: int
    var numTimesInt: int
    var calls: seq<HwCall>

    ghost predicate Valid()
      reads this
    {
      total >= 1 && Inv(total, Counters(numTransfer, numTimesInt))
    }

    constructor (total: nat)
      requires total >= 1
      ensures Valid() && this.total == total
      ensures Counters(numTransfer, numTimesInt) == Initial(total) && calls == []
    {
      this.total := total;
      numTransfer := total;
      numTimesInt := 1;
      calls := [];
    }

    /** ADCseq0Handler: one uDMA completion interrupt. */
    method OnSegmentComplete()
      requires Valid()
      modifies this
      ensures Valid()
      ensures Counters(numTransfer, numTimesInt) == Step(total, old(Counters(numTransfer, numTimesInt))).0
      ensures calls == old(calls) + Step(total, old(Counters(numTransfer, numTimesInt))).1
    {
      if numTransfer >= 3 {
        if numTimesInt % 2 != 0 {
          calls := calls + [Arm(Primary, SegmentSize + SegmentSize * numTimesInt)];
          numTimesInt := numTimesInt + 1;
          numTransfer := numTransfer - 1;
        } else {
          calls := calls + [Arm(Alternate, SegmentSize + SegmentSize * numTimesInt)];
          numTimesInt := numTimesInt + 1;
          numTransfer := numTransfer - 1;
        }
      }

      if numTransfer == 2 {
        numTimesInt := numTimesInt + 1;
        numTransfer := numTransfer - 1;
      } else if numTransfer == 1 {
        calls := calls + [DisableTimer, DisableDma];
        numTransfer := total;
        numTimesInt := 1;
      }
    }
  }
}

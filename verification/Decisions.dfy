/**
 What one iteration decides, said of its snapshots alone: how much room there is, how much is asked for, how
 far a request is cut back, and when the block waits for input or is finished.
 */
module Decisions {
  import opened Rounding
  import opened BlockExecutor

  // ------------------------------------------------------------------------------------
  // Room
  // ------------------------------------------------------------------------------------

  /** A request a block may be given: whole output multiples, and at least its minimum. */
  predicate Askable(b: Block, k: nat)
    requires WellFormed(b)
  {
    k % b.outputMultiple == 0 && k >= 1 && k >= b.minNoutput
  }

  /** k items leave half the buffer free of them and fit what is free now. */
  predicate Holds(v: OutputView, k: nat) {
    2 * k <= v.bufsize && k <= v.space
  }

  lemma HalfHolds(b: Block, k: nat, limit: nat, size: nat)
    requires WellFormed(b) && k % b.outputMultiple == 0
    ensures 2 * k <= size <==> k <= RoundDown(size / 2, b.outputMultiple)
    ensures k <= limit <==> k <= RoundDown(limit, b.outputMultiple)
  {
    if k <= size / 2 {
      RoundDownGreatest(size / 2, b.outputMultiple, k);
    }
    if k <= limit {
      RoundDownGreatest(limit, b.outputMultiple, k);
    }
  }

  /**
   An output fits if and only if some request does, and offers the greatest; otherwise it is too small if
   none could ever fit, and full or done if one could.
   */
  lemma OutputFitsExactlyWhen(b: Block, v: OutputView)
    requires WellFormed(b)
    ensures var check := CheckOutput(b, v);
      && (check.Fits? <==> exists k: nat :: Askable(b, k) && Holds(v, k))
      && (check.Fits? ==> Askable(b, check.n) && Holds(v, check.n))
      && (check.Fits? ==> forall k: nat :: Askable(b, k) && Holds(v, k) ==> k <= check.n)
      && (check.TooSmall? <==> forall k: nat :: Askable(b, k) ==> 2 * k > v.bufsize)
      && (check.DownstreamDone? <==> !check.Fits? && !check.TooSmall? && v.done)
  {
    var a := b.outputMultiple;
    var best, avail := RoundDown(v.bufsize / 2, a), RoundDown(v.space, a);
    forall k: nat | Askable(b, k)
      ensures 2 * k <= v.bufsize <==> k <= best
      ensures k <= v.space <==> k <= avail
    {
      HalfHolds(b, k, v.space, v.bufsize);
    }
    if best >= LeastOutput(b) {
      assert Askable(b, best);
    }
    if Min(avail, best) >= LeastOutput(b) {
      assert Askable(b, Min(avail, best)) && Holds(v, Min(avail, best));
    }
  }

  /** The room of a block with outputs is the greatest request that all of them hold. */
  lemma RoomIsGreatest(b: Block, outs: seq<OutputView>)
    requires WellFormed(b) && outs != [] && ViewsOk(outs)
    ensures MinSpace(b, outs).Room? <==>
            forall i :: 0 <= i < |outs| ==> exists k: nat :: Askable(b, k) && Holds(outs[i], k)
    ensures MinSpace(b, outs).Room? ==>
      var n := MinSpace(b, outs).n;
      && Askable(b, n) && (forall i :: 0 <= i < |outs| ==> Holds(outs[i], n))
      && (forall k: nat :: Askable(b, k) && (forall i :: 0 <= i < |outs| ==> Holds(outs[i], k)) ==> k <= n)
  {
    forall i | 0 <= i < |outs|
      ensures CheckOutput(b, outs[i]).Fits? <==> exists k: nat :: Askable(b, k) && Holds(outs[i], k)
      ensures CheckOutput(b, outs[i]).Fits? ==>
              forall k: nat :: Askable(b, k) && Holds(outs[i], k) ==> k <= CheckOutput(b, outs[i]).n
    {
      OutputFitsExactlyWhen(b, outs[i]);
    }
    if MinSpace(b, outs).Room? {
      RoomFits(b, outs);
      RoomIsWhole(b, outs);
      var n := MinSpace(b, outs).n;
      var i :| 0 <= i < |outs| && CheckOutput(b, outs[i]) == Fits(n);
      forall j | 0 <= j < |outs| ensures Holds(outs[j], n) {
        FitsMeans(b, outs[j]);
      }
    } else {
      FirstBlockedDecides(b, outs);
    }
  }

  // ------------------------------------------------------------------------------------
  // How much is asked for
  // ------------------------------------------------------------------------------------

  /** What a sink hopes to take: the most, in whole multiples, within its maximum and its fullest input's rate. */
  lemma SinkAsksTheMost(b: Block, ins: seq<InputView>, most: nat)
    requires WellFormed(b) && ins != [] && (exists i :: 0 <= i < |ins| && ins[i].avail == most)
    requires forall i :: 0 <= i < |ins| ==> ins[i].avail <= most
    ensures var n := SinkRequest(b, ins);
      && n % b.outputMultiple == 0 && n <= b.maxNoutput && n * b.rateDen <= most * b.rateNum
      && (forall k: nat ::
            k % b.outputMultiple == 0 && k <= b.maxNoutput && k * b.rateDen <= most * b.rateNum ==> k <= n)
  {
    MaxAvailIsMax(ins);
    assert MaxAvail(ins) == most;
    var x, q := most * b.rateNum, most * b.rateNum / b.rateDen;
    assert x == q * b.rateDen + x % b.rateDen;
    var n := SinkRequest(b, ins);
    ProductGrows(n, q, b.rateDen);
    forall k: nat | k % b.outputMultiple == 0 && k <= b.maxNoutput && k * b.rateDen <= x ensures k <= n {
      if k > q {
        ProductGrows(q + 1, k, b.rateDen);
        Distribute(q, 1, b.rateDen);
      }
      RoundDownGreatest(q, b.outputMultiple, k);
      RoundDownGreatest(b.maxNoutput, b.outputMultiple, k);
    }
  }

  lemma ProductGrows(a: nat, b: nat, m: nat)
    requires a <= b
    ensures a * m <= b * m
  {
    Distribute(b, a, m);
  }

  /** A source is asked for the most that its outputs hold and its maximum allows. */
  lemma SourceAsksTheMost(b: Block, outs: seq<OutputView>, al: Align, k: nat)
    requires WellFormed(b) && AlignOk(b, al) && outs != [] && ViewsOk(outs)
    requires Askable(b, k) && k <= b.maxNoutput && forall i :: 0 <= i < |outs| ==> Holds(outs[i], k)
    ensures var o := Iterate(b, [], outs, al).0;
            o.CallWork? && k <= o.n <= b.maxNoutput && forall i :: 0 <= i < |outs| ==> Holds(outs[i], o.n)
  {
    RoomIsGreatest(b, outs);
    RoundDownGreatest(b.maxNoutput, b.outputMultiple, k);
  }

  // ------------------------------------------------------------------------------------
  // How the retries end
  // ------------------------------------------------------------------------------------

  /** For a request of m, input i is the first whose forecast cannot be met. */
  predicate FirstUnmet(b: Block, ins: seq<InputView>, m: nat, i: nat) {
    && i < |ins| && !(0 <= b.forecast(m, i) <= ins[i].avail)
    && forall j :: 0 <= j < i ==> 0 <= b.forecast(m, j) <= ins[j].avail
  }

  /**
   The retries end at some request. If all its forecasts are met, work is called for it. Otherwise the first
   input that does not meet its forecast decides: the block is finished if that forecast is negative, the
   input is done, or it could never hold so much, and waits for input if not - and then not even one
   output multiple was met.
   */
  lemma {:induction false} RetryEnds(b: Block, ins: seq<InputView>, maxAvail: nat, al: Align, n: nat, maxN: nat,
                                     newAlignment: int)
    returns (m: nat, i: nat)
    requires WellFormed(b) && AlignOk(b, al) && n % b.outputMultiple == 0 && maxN % b.outputMultiple == 0
    ensures m <= n
    ensures var o := TryAgain(b, ins, maxAvail, al, n, maxN, newAlignment).0;
      && (o.CallWork? || o.Finished? || o.BlockedIn?)
      && (o.CallWork? <==> forall j :: 0 <= j < |ins| ==> 0 <= b.forecast(m, j) <= ins[j].avail)
      && (o.CallWork? ==> o.n == m)
      && (!o.CallWork? ==> FirstUnmet(b, ins, m, i) && (b.forecast(m, i) >= 0 ==> m <= b.outputMultiple))
      && (!o.CallWork? ==>
            (o.Finished? <==> b.forecast(m, i) < 0 || ins[i].done || b.forecast(m, i) > ins[i].maxPossible))
    decreases n
  {
    OnePassOfRetry(b, ins, maxAvail, al, n, maxN, newAlignment);
    var p := OnePass(b, maxAvail, al, n, maxN, newAlignment);
    var check := CheckInputs(b, ins, p.n, 0);
    if check.Short? && p.n > b.outputMultiple {
      HalvingDecreases(b, p.n);
      m, i := RetryEnds(b, ins, maxAvail, p.al, RoundUp(p.n / 2, b.outputMultiple), p.maxN, p.newAlignment);
    } else {
      m := p.n;
      i := match check case AllMet => 0 case Short(at) => at case Negative(at) => at;
    }
  }

  /** More is asked of an input for more output. */
  ghost predicate Growing(b: Block) {
    forall n: nat, m: nat, i: nat :: n <= m ==> 0 <= b.forecast(n, i) <= b.forecast(m, i)
  }

  predicate Met(b: Block, ins: seq<InputView>, k: nat) {
    forall j :: 0 <= j < |ins| ==> 0 <= b.forecast(k, j) <= ins[j].avail
  }

  /** A request of an aligned block without a fixed rate is only cut to the maximum. */
  lemma AlignedPass(b: Block, maxAvail: nat, al: Align, n: nat, maxN: nat, newAlignment: int)
    requires WellFormed(b) && AlignOk(b, al) && !b.fixedRate && !al.isUnaligned
    requires n % b.outputMultiple == 0 && maxN % b.outputMultiple == 0 && 0 < n && 0 < maxN
    ensures var p := OnePass(b, maxAvail, al, n, maxN, newAlignment);
            p.n == Min(n, maxN) && p.maxN == maxN && !p.al.isUnaligned
  {
    var a, m := b.outputMultiple, Min(n, maxN);
    MultipleDivides(0, a);
    MultipleDivides(1, a);
    MultiplesStep(0, m, a);
    RoundDownGreatest(m, a, m);
  }

  /**
   An unaligned block that is asked for enough to be aligned again is asked for as much of the request as leaves
   it aligned, rounding up; one asked for less takes all of it and owes the rest.
   */
  lemma RealignUsesTheRequest(b: Block, maxAvail: nat, al: Align, n: nat, maxN: nat, newAlignment: int)
    requires WellFormed(b) && AlignOk(b, al) && al.isUnaligned && !b.outputMultipleSet
    ensures var p, m := OnePass(b, maxAvail, al, n, maxN, newAlignment), Clamped(b, maxAvail, n, maxN);
      && (m < al.unaligned ==> p.n == m && p.newAlignment == al.unaligned - m)
      && (m >= al.unaligned ==>
            && p.newAlignment == 0 && p.n >= al.unaligned && (p.n - al.unaligned) % b.outputMultiple == 0
            && m + al.unaligned <= p.n + b.outputMultiple < m + al.unaligned + b.outputMultiple)
  {
    var a, m := b.outputMultiple, Clamped(b, maxAvail, n, maxN);
    if m >= al.unaligned {
      AtLeastOneStep(m, a);
      MultipleDown(RoundUp(m, a), a);
    }
  }

  /** What is left after halving is half or more, rounding down, and still whole multiples. */
  lemma HalfIsLeft(b: Block, n: nat)
    requires WellFormed(b) && n > b.outputMultiple && n % b.outputMultiple == 0
    ensures var m := RoundUp(n / 2, b.outputMultiple); n <= 2 * m + 1 && 0 < m < n && m % b.outputMultiple == 0
  {
    HalvingDecreases(b, n);
  }

  /**
   Cutting a request back by halves loses at most half: of all requests within the first that the inputs
   can meet, none is more than twice what work is called for. If there is one at all, work is called.
   */
  lemma {:induction false} HalvingLosesAtMostHalf(b: Block, ins: seq<InputView>, maxAvail: nat, al: Align, n: nat,
                                                  maxN: nat, newAlignment: int, k: nat)
    requires WellFormed(b) && AlignOk(b, al) && !b.fixedRate && !al.isUnaligned && Growing(b)
    requires n % b.outputMultiple == 0 && maxN % b.outputMultiple == 0 && 0 < n && 0 < maxN
    requires 0 < k <= n && k <= maxN && k % b.outputMultiple == 0 && Met(b, ins, k)
    ensures var o := TryAgain(b, ins, maxAvail, al, n, maxN, newAlignment).0;
            o.CallWork? && k <= 2 * o.n && (Met(b, ins, Min(n, maxN)) ==> o.n == Min(n, maxN))
    decreases n
  {
    OnePassOfRetry(b, ins, maxAvail, al, n, maxN, newAlignment);
    AlignedPass(b, maxAvail, al, n, maxN, newAlignment);
    var p := OnePass(b, maxAvail, al, n, maxN, newAlignment);
    if !CheckInputs(b, ins, p.n, 0).AllMet? {
      StillAskable(b, ins, p.n, k);
      var m: nat := RoundUp(p.n / 2, b.outputMultiple);
      if k <= m {
        HalvingLosesAtMostHalf(b, ins, maxAvail, p.al, m, maxN, p.newAlignment, k);
      } else {
        HalfMet(b, ins, m, k);
        HalvingLosesAtMostHalf(b, ins, maxAvail, p.al, m, maxN, p.newAlignment, m);
      }
    }
  }

  lemma HalfMet(b: Block, ins: seq<InputView>, m: nat, k: nat)
    requires Growing(b) && m <= k && Met(b, ins, k)
    ensures Met(b, ins, m)
  {
  }

  /** A request that cannot be met is above one that can, so it is more than one multiple and is halved. */
  lemma StillAskable(b: Block, ins: seq<InputView>, n: nat, k: nat)
    requires WellFormed(b) && Growing(b) && 0 < n && n % b.outputMultiple == 0
    requires 0 < k && k % b.outputMultiple == 0 && Met(b, ins, k) && !CheckInputs(b, ins, n, 0).AllMet?
    ensures k < n && n > b.outputMultiple && CheckInputs(b, ins, n, 0).Short?
    ensures var m := RoundUp(n / 2, b.outputMultiple); n <= 2 * m + 1 && 0 < m < n && m % b.outputMultiple == 0
  {
    if n <= k {
      HalfMet(b, ins, n, k);
    }
    var a := b.outputMultiple;
    MultipleDivides(0, a);
    MultiplesStep(0, k, a);
    HalfIsLeft(b, n);
    assert forall i: nat :: 0 <= b.forecast(n, i) by {
      forall i: nat ensures 0 <= b.forecast(n, i) {
        assert n <= n;
      }
    }
  }

  /** A whole iteration of an aligned block without a fixed rate loses at most half of what it could ask for. */
  lemma IterationLosesAtMostHalf(b: Block, ins: seq<InputView>, outs: seq<OutputView>, al: Align, k: nat)
    requires WellFormed(b) && AlignOk(b, al) && ViewsOk(outs) && ins != [] && outs != []
    requires !b.fixedRate && !al.isUnaligned && Growing(b)
    requires Askable(b, k) && k <= b.maxNoutput && Met(b, ins, k) && forall i :: 0 <= i < |outs| ==> Holds(outs[i], k)
    ensures var o := Iterate(b, ins, outs, al).0; o.CallWork? && k <= 2 * o.n
  {
    RoomIsGreatest(b, outs);
    RoundDownGreatest(b.maxNoutput, b.outputMultiple, k);
    HalvingLosesAtMostHalf(b, ins, MaxAvail(ins), al, MinSpace(b, outs).n, WholeMax(b), 0, k);
  }

  /** So does an iteration of a sink, of what the rate of an input makes of its items. */
  lemma SinkLosesAtMostHalf(b: Block, ins: seq<InputView>, al: Align, j: nat, k: nat)
    requires WellFormed(b) && AlignOk(b, al) && j < |ins| && !b.fixedRate && !al.isUnaligned && Growing(b)
    requires k > 0 && k % b.outputMultiple == 0 && k <= b.maxNoutput && k * b.rateDen <= ins[j].avail * b.rateNum
    requires Met(b, ins, k) && forall i :: 0 <= i < |ins| ==> !(ins[i].done && ins[i].avail < b.outputMultiple)
    ensures var o := Iterate(b, ins, [], al).0; o.CallWork? && k <= 2 * o.n
  {
    MaxAvailIsMax(ins);
    ProductGrows(ins[j].avail, MaxAvail(ins), b.rateNum);
    SinkAsksTheMost(b, ins, MaxAvail(ins));
    RoundDownGreatest(b.maxNoutput, b.outputMultiple, k);
    HalvingLosesAtMostHalf(b, ins, MaxAvail(ins), al, SinkRequest(b, ins), WholeMax(b), 0, k);
  }

  // ------------------------------------------------------------------------------------
  // When the block is finished, and within its maximum
  // ------------------------------------------------------------------------------------

  /** Some input has ended too short for a request of one output multiple or less. */
  predicate EndedShort(b: Block, ins: seq<InputView>, m: nat, i: nat) {
    i < |ins| && ins[i].done && m <= b.outputMultiple && b.forecast(m, i) > ins[i].avail
  }

  predicate NeverMet(b: Block, ins: seq<InputView>, m: nat, i: nat) {
    i < |ins| && (b.forecast(m, i) < 0 || b.forecast(m, i) > ins[i].maxPossible)
  }

  /**
   A block is finished only for a cause: an output full for good, a sink's input that ended with less than
   an output multiple, an input that ended short of the forecast, or a forecast nothing can meet.
   */
  lemma FinishedForACause(b: Block, ins: seq<InputView>, outs: seq<OutputView>, al: Align)
    requires WellFormed(b) && AlignOk(b, al) && ViewsOk(outs) && (ins != [] || outs != [])
    requires Iterate(b, ins, outs, al).0.Finished?
    ensures || (exists o :: 0 <= o < |outs| && outs[o].done && !exists k: nat :: Askable(b, k) && Holds(outs[o], k))
            || (outs == [] && exists i :: 0 <= i < |ins| && ins[i].done && ins[i].avail < b.outputMultiple)
            || (exists m: nat, i: nat :: EndedShort(b, ins, m, i))
            || (exists m: nat, i: nat :: NeverMet(b, ins, m, i))
  {
    if outs != [] && !MinSpace(b, outs).Room? {
      FirstBlockedDecides(b, outs);
      var o := MinSpace(b, outs).at;
      OutputFitsExactlyWhen(b, outs[o]);
    } else if outs != [] || !SomeInputDry(b, ins) {
      if outs != [] {
        RoomIsWhole(b, outs);
      }
      var n := if outs == [] then SinkRequest(b, ins) else MinSpace(b, outs).n;
      RetriesFinishForACause(b, ins, MaxAvail(ins), al, n, WholeMax(b), 0);
    }
  }

  lemma RetriesFinishForACause(b: Block, ins: seq<InputView>, maxAvail: nat, al: Align, n: nat, maxN: nat,
                               newAlignment: int)
    requires WellFormed(b) && AlignOk(b, al) && n % b.outputMultiple == 0 && maxN % b.outputMultiple == 0
    requires TryAgain(b, ins, maxAvail, al, n, maxN, newAlignment).0.Finished?
    ensures (exists m: nat, i: nat :: EndedShort(b, ins, m, i)) || (exists m: nat, i: nat :: NeverMet(b, ins, m, i))
  {
    var m, i := RetryEnds(b, ins, maxAvail, al, n, maxN, newAlignment);
    assert EndedShort(b, ins, m, i) || NeverMet(b, ins, m, i);
  }

  /** A sink with an input that ended with less than an output multiple is finished. */
  lemma DrySinkIsFinished(b: Block, ins: seq<InputView>, al: Align, i: nat)
    requires WellFormed(b) && AlignOk(b, al) && i < |ins| && ins[i].done && ins[i].avail < b.outputMultiple
    ensures Iterate(b, ins, [], al).0 == Finished
  {
  }

  /** The first output that does not fit decides: full for good finishes the block, full for now makes it wait. */
  lemma FullOutputDecides(b: Block, ins: seq<InputView>, outs: seq<OutputView>, al: Align, o: nat)
    requires WellFormed(b) && AlignOk(b, al) && ViewsOk(outs) && o < |outs|
    requires forall i :: 0 <= i < o ==> exists k: nat :: Askable(b, k) && Holds(outs[i], k)
    requires exists k: nat :: Askable(b, k) && 2 * k <= outs[o].bufsize
    requires !exists k: nat :: Askable(b, k) && Holds(outs[o], k)
    ensures Iterate(b, ins, outs, al) == (if outs[o].done then Finished else BlockedOut, al)
  {
    forall i | 0 <= i <= o
      ensures CheckOutput(b, outs[i]).Fits? <==> exists k: nat :: Askable(b, k) && Holds(outs[i], k)
      ensures !CheckOutput(b, outs[o]).TooSmall?
    {
      OutputFitsExactlyWhen(b, outs[i]);
      OutputFitsExactlyWhen(b, outs[o]);
    }
    var first := outs[..o + 1];
    assert first[o] == outs[o];
    if MinSpace(b, first).Room? {
      RoomFits(b, first);
      assert false;
    }
    FirstBlockedDecides(b, first);
    SettledEarly(b, outs, o + 1);
  }

  /** Work is never asked for more than the maximum, but for one multiple of a block with a fixed rate. */
  lemma {:induction false} RetriesKeepMaximum(b: Block, ins: seq<InputView>, maxAvail: nat, al: Align, n: nat,
                                              maxN: nat, newAlignment: int, limit: nat)
    requires WellFormed(b) && AlignOk(b, al) && n % b.outputMultiple == 0 && maxN % b.outputMultiple == 0
    requires limit % b.outputMultiple == 0 && maxN <= limit && (b.fixedRate ==> b.outputMultiple <= limit)
    ensures var o := TryAgain(b, ins, maxAvail, al, n, maxN, newAlignment).0; o.CallWork? ==> o.n <= limit
    decreases n
  {
    OnePassOfRetry(b, ins, maxAvail, al, n, maxN, newAlignment);
    PassKeepsMaximum(b, maxAvail, al, n, maxN, newAlignment, limit);
    var p := OnePass(b, maxAvail, al, n, maxN, newAlignment);
    if CheckInputs(b, ins, p.n, 0).Short? && p.n > b.outputMultiple {
      RetriesKeepMaximum(b, ins, maxAvail, p.al, RoundUp(p.n / 2, b.outputMultiple), p.maxN, p.newAlignment, limit);
    }
  }

  lemma PassKeepsMaximum(b: Block, maxAvail: nat, al: Align, n: nat, maxN: nat, newAlignment: int, limit: nat)
    requires WellFormed(b) && AlignOk(b, al) && n % b.outputMultiple == 0 && maxN % b.outputMultiple == 0
    requires limit % b.outputMultiple == 0 && maxN <= limit && (b.fixedRate ==> b.outputMultiple <= limit)
    ensures var p := OnePass(b, maxAvail, al, n, maxN, newAlignment); p.n <= limit && p.maxN <= limit
  {
    PassShrinks(b, maxAvail, al, n, maxN, newAlignment);
    var m := Clamped(b, maxAvail, n, maxN);
    ClampShrinks(b, maxAvail, n, maxN);
    if m > 0 {
      RoundUpLeast(m, b.outputMultiple, limit);
    }
  }

  /** A whole iteration asks for no more than the maximum, but for one multiple of a block with a fixed rate. */
  lemma WorkIsWithinMaximum(b: Block, ins: seq<InputView>, outs: seq<OutputView>, al: Align)
    requires WellFormed(b) && AlignOk(b, al) && ViewsOk(outs) && (ins != [] || outs != [])
    requires Iterate(b, ins, outs, al).0.CallWork?
    ensures var n := Iterate(b, ins, outs, al).0.n;
            n <= b.maxNoutput || (ins != [] && b.fixedRate && n <= b.outputMultiple)
  {
    var a := b.outputMultiple;
    MultipleDivides(1, a);
    var limit := if b.fixedRate then Max(a, WholeMax(b)) else WholeMax(b);
    if outs != [] {
      RoomIsWhole(b, outs);
    }
    if ins != [] {
      var n := if outs == [] then SinkRequest(b, ins) else MinSpace(b, outs).n;
      RetriesKeepMaximum(b, ins, MaxAvail(ins), al, n, WholeMax(b), 0, limit);
    }
  }

  /** An aligned block with a fixed rate is not asked for more than its fullest input converts to, if for anything. */
  lemma {:induction false} FixedRateIsNotExceeded(b: Block, ins: seq<InputView>, maxAvail: nat, al: Align, n: nat,
                                                  maxN: nat, newAlignment: int)
    requires WellFormed(b) && AlignOk(b, al) && b.fixedRate && !al.isUnaligned
    requires b.outputMultiple <= b.inputToOutput(maxAvail)
    requires n % b.outputMultiple == 0 && maxN % b.outputMultiple == 0
    ensures var o := TryAgain(b, ins, maxAvail, al, n, maxN, newAlignment).0;
            o.CallWork? ==> o.n <= b.inputToOutput(maxAvail)
    decreases n
  {
    OnePassOfRetry(b, ins, maxAvail, al, n, maxN, newAlignment);
    var p := OnePass(b, maxAvail, al, n, maxN, newAlignment);
    MultipleDivides(1, b.outputMultiple);
    RoundDownGreatest(b.inputToOutput(maxAvail), b.outputMultiple, b.outputMultiple);
    assert p.n <= b.inputToOutput(maxAvail);
    if CheckInputs(b, ins, p.n, 0).Short? && p.n > b.outputMultiple {
      PassShrinks(b, maxAvail, al, n, maxN, newAlignment);
      FixedRateIsNotExceeded(b, ins, maxAvail, p.al, RoundUp(p.n / 2, b.outputMultiple), p.maxN, p.newAlignment);
    }
  }

  /** The same of a whole iteration, whose fullest input holds `most`. */
  lemma IterationKeepsFixedRate(b: Block, ins: seq<InputView>, outs: seq<OutputView>, al: Align, most: nat)
    requires WellFormed(b) && AlignOk(b, al) && ViewsOk(outs) && ins != [] && b.fixedRate && !al.isUnaligned
    requires (exists i :: 0 <= i < |ins| && ins[i].avail == most) && forall i :: 0 <= i < |ins| ==> ins[i].avail <= most
    requires b.outputMultiple <= b.inputToOutput(most)
    ensures var o := Iterate(b, ins, outs, al).0; o.CallWork? ==> o.n <= b.inputToOutput(most)
  {
    MaxAvailIsMax(ins);
    assert MaxAvail(ins) == most;
    if outs == [] {
      FixedRateIsNotExceeded(b, ins, most, al, SinkRequest(b, ins), WholeMax(b), 0);
    } else if MinSpace(b, outs).Room? {
      RoomIsWhole(b, outs);
      FixedRateIsNotExceeded(b, ins, most, al, MinSpace(b, outs).n, WholeMax(b), 0);
    }
  }
}

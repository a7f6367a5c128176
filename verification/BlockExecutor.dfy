/**
 One iteration of the scheduler for one block: find room on the outputs, retry with smaller
 requests until the forecast input is there, keep the output aligned, call the block's work.
 */
module BlockExecutor {
  import opened Rounding

  const INT_MAX := 0x7fff_ffff

  /** What the scheduler reads from a block. Rates are the rational `rateNum / rateDen`. */
  datatype Block = Block(
    outputMultiple: nat,
    outputMultipleSet: bool,
    minNoutput: nat,
    maxNoutput: nat,
    fixedRate: bool,
    inputToOutput: nat -> int,
    forecast: (nat, nat) -> int,
    rateNum: nat,
    rateDen: nat,
    oneToOneTags: bool)

  predicate WellFormed(b: Block) {
    b.outputMultiple >= 1 && b.rateNum >= 1 && b.rateDen >= 1
  }

  /** Snapshot of an input, taken under its mutex. */
  datatype InputView = InputView(avail: nat, done: bool, maxPossible: nat)

  /** Snapshot of an output, taken under its mutex. */
  datatype OutputView = OutputView(space: nat, bufsize: nat, done: bool)

  function Min(a: int, b: int): int { if a < b then a else b }
  function Max(a: int, b: int): int { if a < b then b else a }

  // ------------------------------------------------------------------------------------
  // Room on the outputs
  // ------------------------------------------------------------------------------------

  datatype OutputCheck = Fits(n: nat) | Full | DownstreamDone | TooSmall

  function LeastOutput(b: Block): nat { if b.minNoutput == 0 then 1 else b.minNoutput }

  function CheckOutput(b: Block, v: OutputView): OutputCheck
    requires WellFormed(b)
  {
    var avail := RoundDown(v.space, b.outputMultiple);
    var best := RoundDown(v.bufsize / 2, b.outputMultiple);
    if best < LeastOutput(b) then TooSmall
    else if Min(avail, best) < LeastOutput(b) then (if v.done then DownstreamDone else Full)
    else Fits(Min(avail, best))
  }

  /** Result of looking at all outputs; the last three cases name the output that decided. */
  datatype Room = Room(n: nat) | OutputFull(at: nat) | OutputDone(at: nat) | OutputTooSmall(at: nat)

  function MinSpace(b: Block, outs: seq<OutputView>): Room
    requires WellFormed(b)
  {
    if outs == [] then Room(INT_MAX)
    else
      var k := |outs| - 1;
      var r := MinSpace(b, outs[..k]);
      if !r.Room? then r
      else
        match CheckOutput(b, outs[k])
        case Fits(n) => Room(Min(r.n, n))
        case Full => OutputFull(k)
        case DownstreamDone => OutputDone(k)
        case TooSmall => OutputTooSmall(k)
  }

  lemma FitsMeans(b: Block, v: OutputView)
    requires WellFormed(b) && CheckOutput(b, v).Fits?
    ensures var n := CheckOutput(b, v).n;
      LeastOutput(b) <= n <= v.space && 2 * n <= v.bufsize && n % b.outputMultiple == 0
  {
  }

  /** The request fits every output, in whole output multiples, and is at least the minimum. */
  lemma {:induction false} RoomFits(b: Block, outs: seq<OutputView>)
    requires WellFormed(b) && MinSpace(b, outs).Room?
    ensures var n := MinSpace(b, outs).n;
      && (forall i :: 0 <= i < |outs| ==>
            CheckOutput(b, outs[i]).Fits? && n <= CheckOutput(b, outs[i]).n <= outs[i].space)
      && (n == INT_MAX || exists i :: 0 <= i < |outs| && CheckOutput(b, outs[i]) == Fits(n))
      && n <= INT_MAX
  {
    if outs != [] {
      var k := |outs| - 1;
      RoomFits(b, outs[..k]);
      FitsMeans(b, outs[k]);
      assert forall i :: 0 <= i < k ==> outs[..k][i] == outs[i];
      if MinSpace(b, outs).n != INT_MAX {
        if MinSpace(b, outs).n == MinSpace(b, outs[..k]).n {
          var i :| 0 <= i < k && CheckOutput(b, outs[..k][i]) == Fits(MinSpace(b, outs).n);
          assert CheckOutput(b, outs[i]) == Fits(MinSpace(b, outs).n);
        } else {
          assert CheckOutput(b, outs[k]) == Fits(MinSpace(b, outs).n);
        }
      }
    }
  }

  /** The first output that does not fit decides: done beats waiting only on that same output. */
  lemma {:induction false} FirstBlockedDecides(b: Block, outs: seq<OutputView>)
    requires WellFormed(b) && !MinSpace(b, outs).Room?
    ensures var r := MinSpace(b, outs);
      && r.at < |outs|
      && (forall j :: 0 <= j < r.at ==> CheckOutput(b, outs[j]).Fits?)
      && CheckOutput(b, outs[r.at]) ==
           (match r case OutputFull(_) => Full case OutputDone(_) => DownstreamDone case _ => TooSmall)
  {
    var k := |outs| - 1;
    if !MinSpace(b, outs[..k]).Room? {
      FirstBlockedDecides(b, outs[..k]);
    } else {
      RoomFits(b, outs[..k]);
    }
    assert forall j :: 0 <= j < k ==> outs[..k][j] == outs[j];
  }

  method MinAvailableSpace(b: Block, outs: seq<OutputView>) returns (r: Room)
    requires WellFormed(b)
    ensures r == MinSpace(b, outs)
  {
    r := Room(INT_MAX);
    for i := 0 to |outs|
      invariant r.Room? && r == MinSpace(b, outs[..i])
    {
      assert outs[..i + 1][..i] == outs[..i];
      match CheckOutput(b, outs[i]) {
        case Fits(n) => r := Room(Min(r.n, n));
        case Full => SettledEarly(b, outs, i + 1); return OutputFull(i);
        case DownstreamDone => SettledEarly(b, outs, i + 1); return OutputDone(i);
        case TooSmall => SettledEarly(b, outs, i + 1); return OutputTooSmall(i);
      }
    }
    assert outs[..|outs|] == outs;
  }

  /** Once an output decides, the later ones are not looked at. */
  lemma {:induction false} SettledEarly(b: Block, outs: seq<OutputView>, k: nat)
    requires WellFormed(b) && k <= |outs| && !MinSpace(b, outs[..k]).Room?
    ensures MinSpace(b, outs) == MinSpace(b, outs[..k])
    decreases |outs|
  {
    if k < |outs| {
      var m := |outs| - 1;
      assert outs[..m][..k] == outs[..k];
      SettledEarly(b, outs[..m], k);
    } else {
      assert outs[..k] == outs;
    }
  }

  // ------------------------------------------------------------------------------------
  // The alignment counter and one pass of the retry loop
  // ------------------------------------------------------------------------------------

  datatype Align = Align(unaligned: int, isUnaligned: bool)

  predicate AlignOk(b: Block, al: Align) {
    0 <= al.unaligned <= b.outputMultiple && (al.isUnaligned ==> al.unaligned > 0)
  }

  /** `alignment_state`: -1, 0, 1 and 2. */
  datatype Stage = NotConsidered | Realign | Misaligned | OnBoundary

  datatype Pass = Pass(n: nat, maxN: nat, newAlignment: int, stage: Stage, al: Align)

  function FixedRateRequest(b: Block, maxAvail: nat, n: nat): nat
    requires WellFormed(b)
  {
    var wanted := b.inputToOutput(maxAvail);
    var reqd := if wanted <= 0 then 0
                else if b.outputMultipleSet then RoundDown(wanted, b.outputMultiple) else wanted;
    if 0 < reqd <= n then reqd else n
  }

  /** The request after the fixed-rate adjustment and the clamp to the maximum. */
  function Clamped(b: Block, maxAvail: nat, n: nat, maxN: nat): nat
    requires WellFormed(b)
  {
    Min(if b.fixedRate then FixedRateRequest(b, maxAvail, n) else n,
        if b.fixedRate then Max(b.outputMultiple, maxN) else maxN)
  }

  lemma AtLeastOneStep(m: nat, a: nat)
    requires a > 0 && m > 0
    ensures RoundUp(m, a) >= a
  {
    if RoundUp(m, a) < a {
      MultipleDivides(0, a);
      MultiplesStep(0, RoundUp(m, a), a);
    }
  }

  /** From `try_again` to the forecast, for a request of `n`. */
  function OnePass(b: Block, maxAvail: nat, al: Align, n: nat, maxN: nat, newAlignment: int): Pass
    requires WellFormed(b) && AlignOk(b, al)
  {
    var a := b.outputMultiple;
    var maxN1: nat := if b.fixedRate then Max(a, maxN) else maxN;
    var n2 := Clamped(b, maxAvail, n, maxN);
    if b.outputMultipleSet then Pass(n2, maxN1, newAlignment, NotConsidered, al)
    else if al.isUnaligned then
      if n2 >= al.unaligned then
        AtLeastOneStep(n2, a);
        Pass(RoundUp(n2, a) - (a - al.unaligned), maxN1, 0, Realign, al)
      else Pass(n2, maxN1, al.unaligned - n2, Realign, al)
    else if n2 < a then Pass(n2, maxN1, a - n2, Misaligned, Align(a - n2, true))
    else Pass(RoundDown(n2, a), maxN1, newAlignment, OnBoundary, Align(al.unaligned, false))
  }

  lemma ClampShrinks(b: Block, maxAvail: nat, n: nat, maxN: nat)
    requires WellFormed(b)
    requires n % b.outputMultiple == 0 && maxN % b.outputMultiple == 0
    ensures var m := Clamped(b, maxAvail, n, maxN);
      && m <= n
      && (m > 0 <==> n > 0 && (b.fixedRate || maxN > 0))
      && (b.outputMultipleSet ==> m % b.outputMultiple == 0)
  {
    MultipleDivides(1, b.outputMultiple);
  }

  /** Neither the fixed-rate nor the alignment adjustment ever raises a request. */
  lemma PassShrinks(b: Block, maxAvail: nat, al: Align, n: nat, maxN: nat, newAlignment: int)
    requires WellFormed(b) && AlignOk(b, al)
    requires n % b.outputMultiple == 0 && maxN % b.outputMultiple == 0
    ensures var p := OnePass(b, maxAvail, al, n, maxN, newAlignment);
      && p.n <= n
      && AlignOk(b, p.al)
      && maxN <= p.maxN && p.maxN % b.outputMultiple == 0
      && (p.n > b.outputMultiple ==> p.al.isUnaligned == al.isUnaligned)
      && (p.n > 0 <==> n > 0 && (b.fixedRate || maxN > 0))
      && (b.outputMultipleSet ==> p.n % b.outputMultiple == 0)
  {
    var a := b.outputMultiple;
    var m := Clamped(b, maxAvail, n, maxN);
    ClampShrinks(b, maxAvail, n, maxN);
    MultipleDivides(1, a);
    if !b.outputMultipleSet {
      if al.isUnaligned && m >= al.unaligned {
        RoundUpLeast(m, a, n);
        RoundDownGreatest(RoundUp(m, a), a, a) by { AtLeastOneStep(m, a); }
      } else if !al.isUnaligned && m >= a {
        RoundDownGreatest(m, a, a);
      }
    }
  }

  // ------------------------------------------------------------------------------------
  // The forecast and the retry loop
  // ------------------------------------------------------------------------------------

  datatype InputCheck = AllMet | Short(at: nat) | Negative(at: nat)

  /** Look at inputs `i`, `i + 1`, ... until one is short or its forecast is negative. */
  function CheckInputs(b: Block, ins: seq<InputView>, n: nat, i: nat): (r: InputCheck)
    requires i <= |ins|
    ensures r.AllMet? <==> forall j :: i <= j < |ins| ==> 0 <= b.forecast(n, j) <= ins[j].avail
    ensures r.Short? ==> i <= r.at < |ins| && b.forecast(n, r.at) > ins[r.at].avail
    ensures r.Negative? ==> i <= r.at < |ins| && b.forecast(n, r.at) < 0
    ensures !r.AllMet? ==> forall j :: i <= j < r.at ==> 0 <= b.forecast(n, j) <= ins[j].avail
    decreases |ins| - i
  {
    if i == |ins| then AllMet
    else if b.forecast(n, i) > ins[i].avail then Short(i)
    else if b.forecast(n, i) < 0 then Negative(i)
    else CheckInputs(b, ins, n, i + 1)
  }

  datatype Outcome = CallWork(n: nat, newAlignment: int) | BlockedIn | BlockedOut | Finished | Throws

  function TryAgain(b: Block, ins: seq<InputView>, maxAvail: nat, al: Align, n: nat, maxN: nat, newAlignment: int)
    : (Outcome, Align)
    requires WellFormed(b) && AlignOk(b, al)
    requires n % b.outputMultiple == 0 && maxN % b.outputMultiple == 0
    decreases n
  {
    PassShrinks(b, maxAvail, al, n, maxN, newAlignment);
    var p := OnePass(b, maxAvail, al, n, maxN, newAlignment);
    match CheckInputs(b, ins, p.n, 0)
    case AllMet => (CallWork(p.n, p.newAlignment), p.al)
    case Negative(_) => (Finished, p.al)
    case Short(i) =>
      if p.n > b.outputMultiple then
        HalvingDecreases(b, p.n);
        TryAgain(b, ins, maxAvail, p.al, RoundUp(p.n / 2, b.outputMultiple), p.maxN, p.newAlignment)
      else if ins[i].done || b.forecast(p.n, i) > ins[i].maxPossible then (Finished, p.al)
      else (BlockedIn, if p.stage == Misaligned then Align(0, false) else p.al)
  }

  /** How a pass that is not retried ends the loop. */
  function Ending(b: Block, ins: seq<InputView>, p: Pass, check: InputCheck): (Outcome, Align)
    requires check.Short? ==> check.at < |ins|
  {
    match check
    case AllMet => (CallWork(p.n, p.newAlignment), p.al)
    case Negative(_) => (Finished, p.al)
    case Short(i) =>
      if ins[i].done || b.forecast(p.n, i) > ins[i].maxPossible then (Finished, p.al)
      else (BlockedIn, if p.stage == Misaligned then Align(0, false) else p.al)
  }

  lemma OnePassOfRetry(b: Block, ins: seq<InputView>, maxAvail: nat, al: Align, n: nat, maxN: nat, newAlignment: int)
    requires WellFormed(b) && AlignOk(b, al)
    requires n % b.outputMultiple == 0 && maxN % b.outputMultiple == 0
    ensures var p := OnePass(b, maxAvail, al, n, maxN, newAlignment);
      var check := CheckInputs(b, ins, p.n, 0);
      && AlignOk(b, p.al) && p.n <= n && p.maxN % b.outputMultiple == 0
      && (check.Short? ==> check.at < |ins|)
      && if check.Short? && p.n > b.outputMultiple
         then
           && RoundUp(p.n / 2, b.outputMultiple) < p.n
           && TryAgain(b, ins, maxAvail, al, n, maxN, newAlignment) ==
              TryAgain(b, ins, maxAvail, p.al, RoundUp(p.n / 2, b.outputMultiple), p.maxN, p.newAlignment)
         else TryAgain(b, ins, maxAvail, al, n, maxN, newAlignment) == Ending(b, ins, p, check)
  {
    PassShrinks(b, maxAvail, al, n, maxN, newAlignment);
    var p := OnePass(b, maxAvail, al, n, maxN, newAlignment);
    if p.n > b.outputMultiple {
      HalvingDecreases(b, p.n);
    }
  }

  /** A retry asks for a positive multiple of the output multiple and for strictly less. */
  lemma HalvingDecreases(b: Block, n: nat)
    requires WellFormed(b) && n > b.outputMultiple
    ensures var m := RoundUp(n / 2, b.outputMultiple);
      0 < m < n && m % b.outputMultiple == 0 && m >= b.outputMultiple
  {
    var a := b.outputMultiple;
    assert a % a == 0 by { MultipleDivides(1, a); }
    if n / 2 <= a {
      RoundUpLeast(n / 2, a, a);
    }
    if RoundUp(n / 2, a) < a {
      assert 0 % a == 0 by { MultipleDivides(0, a); }
      MultiplesStep(0, RoundUp(n / 2, a), a);
    }
  }

  // ------------------------------------------------------------------------------------
  // The whole decision
  // ------------------------------------------------------------------------------------

  function MaxAvail(ins: seq<InputView>): nat {
    if ins == [] then 0 else Max(MaxAvail(ins[..|ins| - 1]), ins[|ins| - 1].avail)
  }

  lemma {:induction false} MaxAvailIsMax(ins: seq<InputView>)
    ensures forall i :: 0 <= i < |ins| ==> ins[i].avail <= MaxAvail(ins)
    ensures ins != [] ==> exists i :: 0 <= i < |ins| && ins[i].avail == MaxAvail(ins)
  {
    if ins != [] {
      var k := |ins| - 1;
      MaxAvailIsMax(ins[..k]);
      assert forall i :: 0 <= i < k ==> ins[..k][i] == ins[i];
      if k == 0 || MaxAvail(ins[..k]) < ins[k].avail {
        assert ins[k].avail == MaxAvail(ins);
      } else {
        var i :| 0 <= i < k && ins[..k][i].avail == MaxAvail(ins[..k]);
        assert ins[i].avail == MaxAvail(ins);
      }
    }
  }

  /** `d_max_noutput_items` in whole output multiples. */
  function WholeMax(b: Block): nat
    requires WellFormed(b)
  {
    RoundDown(b.maxNoutput, b.outputMultiple)
  }

  predicate SomeInputDry(b: Block, ins: seq<InputView>) {
    exists i :: 0 <= i < |ins| && ins[i].avail < b.outputMultiple && ins[i].done
  }

  /** How much a sink hopes to take: the fullest input at its relative rate. */
  function SinkRequest(b: Block, ins: seq<InputView>): (n: nat)
    requires WellFormed(b)
    ensures n % b.outputMultiple == 0
  {
    Min(RoundDown(MaxAvail(ins) * b.rateNum / b.rateDen, b.outputMultiple), WholeMax(b))
  }

  /** The decision for a block with `nouts` outputs whose room is `room`. */
  ghost function Decide(b: Block, ins: seq<InputView>, nouts: nat, room: Room, al: Align): (Outcome, Align)
    requires WellFormed(b) && AlignOk(b, al)
    requires nouts > 0 && room.Room? ==> room.n % b.outputMultiple == 0
  {
    if ins != [] && nouts == 0 then
      if SomeInputDry(b, ins) then (Finished, al)
      else if SinkRequest(b, ins) == 0 then (BlockedIn, al)
      else TryAgain(b, ins, MaxAvail(ins), al, SinkRequest(b, ins), WholeMax(b), 0)
    else
      match room
      case OutputTooSmall(_) => (Throws, al)
      case OutputDone(_) => (Finished, al)
      case OutputFull(_) => (BlockedOut, al)
      case Room(n) =>
        if ins != [] then
          if n == 0 then (BlockedOut, al)
          else TryAgain(b, ins, MaxAvail(ins), al, n, WholeMax(b), 0)
        else if Min(n, WholeMax(b)) == 0 then (BlockedOut, al)
        else (CallWork(Min(n, WholeMax(b)), 0), al)
  }

  predicate ViewsOk(outs: seq<OutputView>) {
    forall i :: 0 <= i < |outs| ==> outs[i].space < outs[i].bufsize <= INT_MAX
  }

  lemma RoomIsWhole(b: Block, outs: seq<OutputView>)
    requires WellFormed(b) && outs != [] && ViewsOk(outs) && MinSpace(b, outs).Room?
    ensures var n := MinSpace(b, outs).n; n % b.outputMultiple == 0 && n >= LeastOutput(b)
  {
    RoomFits(b, outs);
    var n := MinSpace(b, outs).n;
    FitsMeans(b, outs[0]);
    var i :| 0 <= i < |outs| && CheckOutput(b, outs[i]) == Fits(n);
    FitsMeans(b, outs[i]);
  }

  /** The outcome of `run_one_iteration` up to the call of work, and the alignment it leaves. */
  ghost function Iterate(b: Block, ins: seq<InputView>, outs: seq<OutputView>, al: Align): (Outcome, Align)
    requires WellFormed(b) && AlignOk(b, al) && ViewsOk(outs)
  {
    if outs != [] && MinSpace(b, outs).Room? then
      RoomIsWhole(b, outs);
      Decide(b, ins, |outs|, MinSpace(b, outs), al)
    else Decide(b, ins, |outs|, MinSpace(b, outs), al)
  }

  // ------------------------------------------------------------------------------------
  // Safety of the call to work
  // ------------------------------------------------------------------------------------

  /** The requests seen at `try_again`, in order. */
  ghost function Requests(b: Block, ins: seq<InputView>, maxAvail: nat, al: Align, n: nat, maxN: nat,
                          newAlignment: int): seq<nat>
    requires WellFormed(b) && AlignOk(b, al)
    requires n % b.outputMultiple == 0 && maxN % b.outputMultiple == 0
    decreases n
  {
    PassShrinks(b, maxAvail, al, n, maxN, newAlignment);
    var p := OnePass(b, maxAvail, al, n, maxN, newAlignment);
    if CheckInputs(b, ins, p.n, 0).Short? && p.n > b.outputMultiple then
      HalvingDecreases(b, p.n);
      [n] + Requests(b, ins, maxAvail, p.al, RoundUp(p.n / 2, b.outputMultiple), p.maxN, p.newAlignment)
    else [n]
  }

  lemma {:induction false} RequestsDescend(b: Block, ins: seq<InputView>, maxAvail: nat, al: Align, n: nat, maxN: nat,
                                           newAlignment: int)
    requires WellFormed(b) && AlignOk(b, al)
    requires 0 < n && n % b.outputMultiple == 0 && maxN % b.outputMultiple == 0
    ensures var q := Requests(b, ins, maxAvail, al, n, maxN, newAlignment);
      && |q| >= 1 && q[0] == n
      && (forall i :: 0 <= i < |q| ==> q[i] > 0 && q[i] % b.outputMultiple == 0)
      && (forall i :: 0 <= i < |q| - 1 ==> q[i + 1] < q[i])
    decreases n
  {
    PassShrinks(b, maxAvail, al, n, maxN, newAlignment);
    var p := OnePass(b, maxAvail, al, n, maxN, newAlignment);
    if CheckInputs(b, ins, p.n, 0).Short? && p.n > b.outputMultiple {
      HalvingDecreases(b, p.n);
      var m := RoundUp(p.n / 2, b.outputMultiple);
      RequestsDescend(b, ins, maxAvail, p.al, m, p.maxN, p.newAlignment);
      var rest := Requests(b, ins, maxAvail, p.al, m, p.maxN, p.newAlignment);
      var q := Requests(b, ins, maxAvail, al, n, maxN, newAlignment);
      assert q == [n] + rest;
      forall i | 0 <= i < |q| - 1 ensures q[i + 1] < q[i] {
        if i > 0 {
          assert rest[i] < rest[i - 1];
        }
      }
    }
  }

  lemma {:induction false} TryAgainSafe(b: Block, ins: seq<InputView>, maxAvail: nat, al: Align, n: nat, maxN: nat,
                                        newAlignment: int)
    requires WellFormed(b) && AlignOk(b, al) && 0 <= newAlignment <= b.outputMultiple
    requires n % b.outputMultiple == 0 && maxN % b.outputMultiple == 0
    ensures var (o, al') := TryAgain(b, ins, maxAvail, al, n, maxN, newAlignment);
      && AlignOk(b, al')
      && (o.CallWork? || o.BlockedIn? || o.Finished?)
      && (o.CallWork? ==>
            && o.n <= n
            && 0 <= o.newAlignment <= b.outputMultiple
            && (o.n > 0 <==> n > 0 && (b.fixedRate || maxN > 0))
            && (b.outputMultipleSet ==> o.n % b.outputMultiple == 0)
            && (forall i :: 0 <= i < |ins| ==> 0 <= b.forecast(o.n, i) <= ins[i].avail))
    decreases n
  {
    PassShrinks(b, maxAvail, al, n, maxN, newAlignment);
    var p := OnePass(b, maxAvail, al, n, maxN, newAlignment);
    if CheckInputs(b, ins, p.n, 0).Short? && p.n > b.outputMultiple {
      HalvingDecreases(b, p.n);
      var m := RoundUp(p.n / 2, b.outputMultiple);
      assert p.n > 0;
      TryAgainSafe(b, ins, maxAvail, p.al, m, p.maxN, p.newAlignment);
      assert b.fixedRate || maxN > 0;
    }
  }

  /**
   When work is called: the request fits every output, every forecast input is there, it is a
   whole number of output multiples if one was set, and it is empty exactly for a block with
   inputs, without a fixed rate, whose maximum is below its output multiple.
   */
  lemma WorkIsSafe(b: Block, ins: seq<InputView>, outs: seq<OutputView>, al: Align)
    requires WellFormed(b) && AlignOk(b, al) && ViewsOk(outs)
    requires ins != [] || outs != []
    requires Iterate(b, ins, outs, al).0.CallWork?
    ensures var n := Iterate(b, ins, outs, al).0.n;
      && (forall i :: 0 <= i < |outs| ==> n <= outs[i].space)
      && (forall i :: 0 <= i < |ins| ==> 0 <= b.forecast(n, i) <= ins[i].avail)
      && (b.outputMultipleSet ==> n % b.outputMultiple == 0)
      && (ins == [] ==> n % b.outputMultiple == 0)
      && (n == 0 <==> ins != [] && !b.fixedRate && b.maxNoutput < b.outputMultiple)
  {
    RoomFits(b, outs);
    if outs != [] && MinSpace(b, outs).Room? {
      RoomIsWhole(b, outs);
    }
    var a := b.outputMultiple;
    MultipleDivides(1, a);
    if b.maxNoutput >= a {
      RoundDownGreatest(b.maxNoutput, a, a);
    } else {
      MultipleDivides(0, a);
      CloseMultiplesEqual(0, WholeMax(b), a);
    }
    if ins != [] && outs == [] {
      TryAgainSafe(b, ins, MaxAvail(ins), al, SinkRequest(b, ins), WholeMax(b), 0);
    } else if ins != [] {
      TryAgainSafe(b, ins, MaxAvail(ins), al, MinSpace(b, outs).n, WholeMax(b), 0);
    }
  }

  lemma FitsIsRoom(b: Block, outs: seq<OutputView>)
    requires WellFormed(b) && ViewsOk(outs) && forall i :: 0 <= i < |outs| ==> CheckOutput(b, outs[i]).Fits?
    ensures outs != [] ==>
            MinSpace(b, outs).Room? && MinSpace(b, outs).n > 0 && MinSpace(b, outs).n % b.outputMultiple == 0
    ensures MinSpace(b, outs).Room?
  {
    if !MinSpace(b, outs).Room? {
      FirstBlockedDecides(b, outs);
    }
    if outs != [] {
      RoomIsWhole(b, outs);
    }
  }

  lemma WholeMaxPositive(b: Block)
    requires WellFormed(b)
    ensures WholeMax(b) % b.outputMultiple == 0 && (b.maxNoutput >= b.outputMultiple ==> WholeMax(b) > 0)
  {
    if b.maxNoutput >= b.outputMultiple {
      MultipleDivides(1, b.outputMultiple);
      RoundDownGreatest(b.maxNoutput, b.outputMultiple, b.outputMultiple);
    }
  }

  /**
   With room on every output an iteration never throws, and waits for output space only when it
   is a source whose maximum is below its output multiple. The alignment it leaves is in range.
   */
  lemma IterateWithRoom(b: Block, ins: seq<InputView>, outs: seq<OutputView>, al: Align)
    requires WellFormed(b) && AlignOk(b, al) && ViewsOk(outs) && (ins != [] || outs != [])
    requires forall i :: 0 <= i < |outs| ==> CheckOutput(b, outs[i]).Fits?
    ensures var (o, al') := Iterate(b, ins, outs, al);
      && !o.Throws?
      && (o.BlockedOut? ==> ins == [] && b.maxNoutput < b.outputMultiple)
      && AlignOk(b, al')
      && (o.CallWork? ==> o.n >= 0 && AlignOk(b, AfterWork(al', o.newAlignment)))
  {
    FitsIsRoom(b, outs);
    DecideWithRoom(b, ins, |outs|, MinSpace(b, outs), al);
  }

  lemma DecideWithRoom(b: Block, ins: seq<InputView>, nouts: nat, room: Room, al: Align)
    requires WellFormed(b) && AlignOk(b, al) && (ins != [] || nouts > 0)
    requires nouts > 0 ==> room.Room? && room.n > 0 && room.n % b.outputMultiple == 0
    ensures var (o, al') := Decide(b, ins, nouts, room, al);
      && !o.Throws?
      && (o.BlockedOut? ==> ins == [] && b.maxNoutput < b.outputMultiple)
      && AlignOk(b, al')
      && (o.CallWork? ==> o.n >= 0 && AlignOk(b, AfterWork(al', o.newAlignment)))
  {
    WholeMaxPositive(b);
    if ins != [] {
      TryAgainSafe(b, ins, MaxAvail(ins), al, if nouts == 0 then SinkRequest(b, ins) else room.n, WholeMax(b), 0);
    }
  }

  // ------------------------------------------------------------------------------------
  // The alignment counter over whole runs
  // ------------------------------------------------------------------------------------

  /** After work returns, with the new alignment chosen before the call. */
  function AfterWork(al: Align, newAlignment: int): Align {
    if al.isUnaligned then Align(newAlignment, newAlignment != 0) else al
  }

  ghost predicate Exact(b: Block, al: Align, total: nat)
    requires WellFormed(b)
  {
    if al.isUnaligned then 0 < al.unaligned < b.outputMultiple && (total + al.unaligned) % b.outputMultiple == 0
    else total % b.outputMultiple == 0
  }

  /** One pass keeps the books: what it offers and what it leaves owing complete a multiple. */
  lemma PassExact(b: Block, maxAvail: nat, al: Align, n: nat, maxN: nat, newAlignment: int, total: nat)
    requires WellFormed(b) && AlignOk(b, al) && Exact(b, al, total) && !b.outputMultipleSet
    requires n % b.outputMultiple == 0 && maxN % b.outputMultiple == 0
    ensures var p := OnePass(b, maxAvail, al, n, maxN, newAlignment);
      && (p.n > 0 || al.isUnaligned <==> Exact(b, AfterWork(p.al, p.newAlignment), total + p.n))
      && (p.stage != Misaligned ==> Exact(b, p.al, total))
      && (p.stage == Misaligned <==> p.al.isUnaligned && !al.isUnaligned)
      && (p.stage == Misaligned ==> p.n < b.outputMultiple)
  {
    var a := b.outputMultiple;
    var m := Clamped(b, maxAvail, n, maxN);
    ClampShrinks(b, maxAvail, n, maxN);
    PassShrinks(b, maxAvail, al, n, maxN, newAlignment);
    var p := OnePass(b, maxAvail, al, n, maxN, newAlignment);
    if al.isUnaligned && m >= al.unaligned {
      MultipleDivides(1, a);
      AtLeastOneStep(m, a);
      SumOfMultiples(total + al.unaligned, RoundUp(m, a), a);
      assert total + p.n == total + al.unaligned + RoundUp(m, a) - a;
      MultipleDown(total + al.unaligned + RoundUp(m, a), a);
    } else if !al.isUnaligned && m < a {
      MultipleDivides(1, a);
      SumOfMultiples(total, a, a);
      assert total + p.n + p.newAlignment == total + a;
    } else if !al.isUnaligned {
      SumOfMultiples(total, RoundDown(m, a), a);
    }
  }

  lemma MultipleDown(x: nat, m: nat)
    requires m > 0 && x % m == 0 && x >= m
    ensures (x - m) % m == 0
  {
    assert x == (x / m) * m;
    Distribute(x / m, 1, m);
    MultipleDivides(x / m - 1, m);
  }

  lemma OffBoundary(total: nat, k: nat, m: nat)
    requires 0 < k < m && total % m == 0
    ensures (total + k) % m != 0
  {
    DivisionUnique(total + k, total / m, k, m);
  }

  /** A first misalignment that never reached work is wrong on the books until it is taken back. */
  lemma MisalignedNotExact(b: Block, maxAvail: nat, al: Align, n: nat, maxN: nat, newAlignment: int, total: nat)
    requires WellFormed(b) && AlignOk(b, al) && Exact(b, al, total) && !b.outputMultipleSet
    requires n % b.outputMultiple == 0 && maxN % b.outputMultiple == 0
    requires OnePass(b, maxAvail, al, n, maxN, newAlignment).stage == Misaligned
    ensures !Exact(b, OnePass(b, maxAvail, al, n, maxN, newAlignment).al, total)
    ensures Exact(b, Align(0, false), total)
  {
    var p := OnePass(b, maxAvail, al, n, maxN, newAlignment);
    PassExact(b, maxAvail, al, n, maxN, newAlignment, total);
    if p.n > 0 {
      OffBoundary(total, p.al.unaligned, b.outputMultiple);
    }
  }

  /** No retry raises the unaligned flag: it is up already, or the first request holds a whole multiple. */
  predicate FlagSettled(b: Block, maxAvail: nat, al: Align, n: nat, maxN: nat)
    requires WellFormed(b)
  {
    al.isUnaligned || Clamped(b, maxAvail, n, maxN) >= b.outputMultiple
  }

  /** What is halved from a request that held a whole multiple still holds one. */
  lemma SettledStaysSettled(b: Block, maxAvail: nat, al: Align, n: nat, maxN: nat, newAlignment: int)
    requires WellFormed(b) && AlignOk(b, al) && !b.outputMultipleSet
    requires n % b.outputMultiple == 0 && maxN % b.outputMultiple == 0
    requires OnePass(b, maxAvail, al, n, maxN, newAlignment).n > b.outputMultiple
    ensures var p := OnePass(b, maxAvail, al, n, maxN, newAlignment);
      && FlagSettled(b, maxAvail, al, n, maxN)
      && FlagSettled(b, maxAvail, p.al, RoundUp(p.n / 2, b.outputMultiple), p.maxN)
  {
    var p := OnePass(b, maxAvail, al, n, maxN, newAlignment);
    PassShrinks(b, maxAvail, al, n, maxN, newAlignment);
    HalvingDecreases(b, p.n);
  }

  /** `settled` says, of the inputs of the iteration, whether finishing leaves the counter exact. */
  ghost predicate BooksKept(b: Block, o: Outcome, al: Align, al': Align, total: nat, settled: bool)
    requires WellFormed(b)
  {
    match o
    case CallWork(n, newAlignment) =>
      Exact(b, AfterWork(al', newAlignment), total + n) <==> n > 0 || al.isUnaligned
    case BlockedIn => Exact(b, al', total)
    case BlockedOut => Exact(b, al', total)
    case Finished => Exact(b, al', total) <==> settled
    case Throws => true
  }

  lemma {:induction false} TryAgainExact(b: Block, ins: seq<InputView>, maxAvail: nat, al: Align, n: nat, maxN: nat,
                                         newAlignment: int, total: nat)
    requires WellFormed(b) && AlignOk(b, al) && Exact(b, al, total) && !b.outputMultipleSet
    requires n % b.outputMultiple == 0 && maxN % b.outputMultiple == 0
    ensures var r := TryAgain(b, ins, maxAvail, al, n, maxN, newAlignment);
      BooksKept(b, r.0, al, r.1, total, FlagSettled(b, maxAvail, al, n, maxN))
    decreases n
  {
    PassShrinks(b, maxAvail, al, n, maxN, newAlignment);
    PassExact(b, maxAvail, al, n, maxN, newAlignment, total);
    var p := OnePass(b, maxAvail, al, n, maxN, newAlignment);
    if CheckInputs(b, ins, p.n, 0).Short? && p.n > b.outputMultiple {
      HalvingDecreases(b, p.n);
      SettledStaysSettled(b, maxAvail, al, n, maxN, newAlignment);
      assert p.stage != Misaligned;
      TryAgainExact(b, ins, maxAvail, p.al, RoundUp(p.n / 2, b.outputMultiple), p.maxN, p.newAlignment, total);
    } else if p.stage == Misaligned {
      MisalignedNotExact(b, maxAvail, al, n, maxN, newAlignment, total);
    }
  }

  /**
   The inputs on which finishing leaves the counter exact: the retry loop is not reached, or the flag
   is up already, or the first request holds a whole multiple.
   */
  predicate FinishSettled(b: Block, ins: seq<InputView>, outs: seq<OutputView>, al: Align)
    requires WellFormed(b)
  {
    if ins != [] && outs == [] then
      SomeInputDry(b, ins) || SinkRequest(b, ins) == 0 ||
        FlagSettled(b, MaxAvail(ins), al, SinkRequest(b, ins), WholeMax(b))
    else
      var room := MinSpace(b, outs);
      ins == [] || !room.Room? || room.n == 0 || FlagSettled(b, MaxAvail(ins), al, room.n, WholeMax(b))
  }

  /**
   One iteration keeps the books, except exactly when work is called with an empty request on an
   aligned block, or when the block finishes and its first request did not hold a whole multiple.
   */
  lemma IterationKeepsBooks(b: Block, ins: seq<InputView>, outs: seq<OutputView>, al: Align, total: nat)
    requires WellFormed(b) && AlignOk(b, al) && Exact(b, al, total) && !b.outputMultipleSet && ViewsOk(outs)
    requires ins != [] || (outs != [] && !al.isUnaligned)
    ensures var r := Iterate(b, ins, outs, al);
      && BooksKept(b, r.0, al, r.1, total, FinishSettled(b, ins, outs, al))
      && AlignOk(b, r.1) && (ins == [] ==> r.1 == al)
  {
    var r := Iterate(b, ins, outs, al);
    if outs != [] && MinSpace(b, outs).Room? {
      RoomIsWhole(b, outs);
    }
    if ins != [] && outs == [] {
      TryAgainSafe(b, ins, MaxAvail(ins), al, SinkRequest(b, ins), WholeMax(b), 0);
      TryAgainExact(b, ins, MaxAvail(ins), al, SinkRequest(b, ins), WholeMax(b), 0, total);
    } else if MinSpace(b, outs).Room? {
      if ins != [] {
        TryAgainSafe(b, ins, MaxAvail(ins), al, MinSpace(b, outs).n, WholeMax(b), 0);
        TryAgainExact(b, ins, MaxAvail(ins), al, MinSpace(b, outs).n, WholeMax(b), 0, total);
      } else if r.0.CallWork? {
        SumOfMultiples(total, r.0.n, b.outputMultiple);
      }
    }
  }

  /** An iteration that calls work leaves the counter exact unless it asks an aligned block for nothing. */
  lemma WorkKeepsBooksExactlyWhen(b: Block, ins: seq<InputView>, outs: seq<OutputView>, al: Align, total: nat)
    requires WellFormed(b) && AlignOk(b, al) && Exact(b, al, total) && !b.outputMultipleSet && ViewsOk(outs)
    requires ins != [] || (outs != [] && !al.isUnaligned)
    requires Iterate(b, ins, outs, al).0.CallWork?
    ensures var (o, al') := Iterate(b, ins, outs, al);
      Exact(b, AfterWork(al', o.newAlignment), total + o.n) <==>
      al.isUnaligned || ins == [] || b.fixedRate || b.maxNoutput >= b.outputMultiple
  {
    IterationKeepsBooks(b, ins, outs, al, total);
    WorkIsSafe(b, ins, outs, al);
  }

  /** An iteration that finishes the block leaves the counter exact if and only if its inputs are settled. */
  lemma FinishKeepsBooksExactlyWhen(b: Block, ins: seq<InputView>, outs: seq<OutputView>, al: Align, total: nat)
    requires WellFormed(b) && AlignOk(b, al) && Exact(b, al, total) && !b.outputMultipleSet && ViewsOk(outs)
    requires ins != [] || (outs != [] && !al.isUnaligned)
    requires Iterate(b, ins, outs, al).0.Finished?
    ensures Exact(b, Iterate(b, ins, outs, al).1, total) <==> FinishSettled(b, ins, outs, al)
  {
    IterationKeepsBooks(b, ins, outs, al, total);
  }

  /** Work called for nothing: the counter is left a whole alignment off. */
  lemma EmptyRequestCanBreakBooks() returns (b: Block, ins: seq<InputView>, outs: seq<OutputView>, al: Align)
    ensures WellFormed(b) && AlignOk(b, al) && Exact(b, al, 0) && !b.outputMultipleSet && ViewsOk(outs)
    ensures ins != [] && outs != [] && Iterate(b, ins, outs, al).0 == CallWork(0, 4)
    ensures !Exact(b, AfterWork(Iterate(b, ins, outs, al).1, 4), 0)
  {
    b := Block(4, false, 0, 3, false, (a: nat) => a, (n: nat, i: nat) => n, 1, 1, false);
    ins := [InputView(2, false, 15)];
    outs := [OutputView(8, 16, false)];
    al := Align(0, false);
    assert MinSpace(b, outs) == Room(8) by {
      assert outs[..0] == [];
      assert CheckOutput(b, outs[0]) == Fits(8);
    }
    AskedForNothing(b, ins, MaxAvail(ins), al);
  }

  lemma AskedForNothing(b: Block, ins: seq<InputView>, maxAvail: nat, al: Align)
    requires WellFormed(b) && b.outputMultiple == 4 && !b.outputMultipleSet && !b.fixedRate
    requires ins == [InputView(2, false, 15)] && b.forecast(0, 0) == 0 && al == Align(0, false)
    ensures TryAgain(b, ins, maxAvail, al, 8, 0, 0) == (CallWork(0, 4), Align(4, true))
  {
    assert OnePass(b, maxAvail, al, 8, 0, 0) == Pass(0, 0, 4, Misaligned, Align(4, true));
    assert CheckInputs(b, ins, 0, 0) == AllMet;
  }

  /** A block that stops with one input exhausted can leave its counter wrong. */
  lemma FinishingCanBreakBooks() returns (b: Block, ins: seq<InputView>, outs: seq<OutputView>, al: Align)
    ensures WellFormed(b) && AlignOk(b, al) && Exact(b, al, 0) && !b.outputMultipleSet && ViewsOk(outs)
    ensures b.maxNoutput >= b.outputMultiple && ins != [] && outs != []
    ensures Iterate(b, ins, outs, al).0 == Finished
    ensures !Exact(b, Iterate(b, ins, outs, al).1, 0)
  {
    b := Block(4, false, 0, 8, true, (a: nat) => a, (n: nat, i: nat) => n, 1, 1, false);
    ins := [InputView(2, false, 15), InputView(0, true, 15)];
    outs := [OutputView(8, 16, false)];
    al := Align(0, false);
    assert MinSpace(b, outs) == Room(8) by {
      assert outs[..0] == [];
      assert CheckOutput(b, outs[0]) == Fits(8);
    }
    assert MaxAvail(ins) == 2 by {
      assert ins[..1] == [ins[0]] && [ins[0]][..0] == [];
    }
    TwoInputsOneDry(b, ins, al);
  }

  lemma TwoInputsOneDry(b: Block, ins: seq<InputView>, al: Align)
    requires WellFormed(b) && b.outputMultiple == 4 && !b.outputMultipleSet && b.fixedRate
    requires b.inputToOutput(2) == 2 && b.forecast(2, 0) == 2 && b.forecast(2, 1) == 2
    requires ins == [InputView(2, false, 15), InputView(0, true, 15)] && al == Align(0, false)
    ensures TryAgain(b, ins, 2, al, 8, 8, 0) == (Finished, Align(2, true))
  {
    assert Clamped(b, 2, 8, 8) == 2;
    assert OnePass(b, 2, al, 8, 8, 0) == Pass(2, 8, 2, Misaligned, Align(2, true));
    assert CheckInputs(b, ins, 2, 0) == CheckInputs(b, ins, 2, 1) == Short(1);
  }

  datatype View = View(ins: seq<InputView>, outs: seq<OutputView>)

  datatype RunState = RunState(al: Align, total: nat, live: bool)

  ghost predicate RunViews(b: Block, nins: nat, views: seq<View>) {
    forall i :: 0 <= i < |views| ==>
      |views[i].ins| == nins && (nins > 0 || views[i].outs != []) && ViewsOk(views[i].outs)
  }

  /** The state after an iteration that ended so. */
  ghost function Moved(b: Block, s: RunState, o: Outcome, al: Align): (t: RunState)
    requires AlignOk(b, s.al)
    ensures AlignOk(b, t.al)
  {
    match o
    case CallWork(n, newAlignment) =>
      var al' := AfterWork(al, newAlignment);
      if AlignOk(b, al') then RunState(al', s.total + n, true) else s.(live := false)
    case _ => if AlignOk(b, al) then RunState(al, s.total, !o.Finished? && !o.Throws?) else s.(live := false)
  }

  lemma MovedExact(b: Block, nins: nat, s: RunState, o: Outcome, al: Align, settled: bool)
    requires WellFormed(b) && AlignOk(b, s.al) && AlignOk(b, al) && (nins == 0 ==> !s.al.isUnaligned && al == s.al)
    requires BooksKept(b, o, s.al, al, s.total, settled) && (o.CallWork? ==> o.n > 0)
    ensures var t := Moved(b, s, o, al);
      t.live ==> Exact(b, t.al, t.total) && (nins == 0 ==> !t.al.isUnaligned)
  {
  }

  lemma IterationKeepsBooksWhileWorking(b: Block, ins: seq<InputView>, outs: seq<OutputView>, al: Align, total: nat)
    requires WellFormed(b) && AlignOk(b, al) && Exact(b, al, total) && !b.outputMultipleSet && ViewsOk(outs)
    requires ins != [] || (outs != [] && !al.isUnaligned)
    requires b.fixedRate || b.maxNoutput >= b.outputMultiple
    ensures var r := Iterate(b, ins, outs, al);
      && BooksKept(b, r.0, al, r.1, total, FinishSettled(b, ins, outs, al))
      && AlignOk(b, r.1) && (ins == [] ==> r.1 == al) && (r.0.CallWork? ==> r.0.n > 0)
  {
    IterationKeepsBooks(b, ins, outs, al, total);
    if Iterate(b, ins, outs, al).0.CallWork? {
      WorkIsSafe(b, ins, outs, al);
    }
  }

  /**
   A run of a block that produces everything it is offered, one snapshot an iteration. It stops
   when an iteration finishes the block, throws, or would set an alignment out of range.
   */
  ghost function Run(b: Block, nins: nat, views: seq<View>): (s: RunState)
    requires WellFormed(b) && RunViews(b, nins, views)
    ensures AlignOk(b, s.al)
  {
    if views == [] then RunState(Align(0, false), 0, true)
    else
      var k := |views| - 1;
      var s := Run(b, nins, views[..k]);
      if !s.live then s
      else
        var r := Iterate(b, views[k].ins, views[k].outs, s.al);
        Moved(b, s, r.0, r.1)
  }

  /**
   After every iteration of every run: the flag is off and the total is a multiple of the
   alignment, or it is on and the total plus the unaligned count is the next multiple.
   */
  lemma {:induction false} AlignmentExactOverRuns(b: Block, nins: nat, views: seq<View>)
    requires WellFormed(b) && RunViews(b, nins, views) && !b.outputMultipleSet
    requires b.fixedRate || b.maxNoutput >= b.outputMultiple
    ensures var s := Run(b, nins, views);
      s.live ==> Exact(b, s.al, s.total) && (nins == 0 ==> !s.al.isUnaligned)
  {
    if views == [] {
      MultipleDivides(0, b.outputMultiple);
    } else {
      var k := |views| - 1;
      AlignmentExactOverRuns(b, nins, views[..k]);
      var s := Run(b, nins, views[..k]);
      if s.live {
        OneMoreIterationExact(b, nins, views, s);
      }
    }
  }

  lemma OneMoreIterationExact(b: Block, nins: nat, views: seq<View>, s: RunState)
    requires WellFormed(b) && RunViews(b, nins, views) && !b.outputMultipleSet && views != []
    requires b.fixedRate || b.maxNoutput >= b.outputMultiple
    requires s == Run(b, nins, views[..|views| - 1]) && s.live && Exact(b, s.al, s.total) &&
             (nins == 0 ==> !s.al.isUnaligned)
    ensures var t := Run(b, nins, views);
      t.live ==> Exact(b, t.al, t.total) && (nins == 0 ==> !t.al.isUnaligned)
  {
    var v := views[|views| - 1];
    IterationKeepsBooksWhileWorking(b, v.ins, v.outs, s.al, s.total);
    var r := Iterate(b, v.ins, v.outs, s.al);
    MovedExact(b, nins, s, r.0, r.1, FinishSettled(b, v.ins, v.outs, s.al));
  }

  /** And such a run stops only when an iteration finished the block or threw. */
  lemma RunStopsOnlyWhenFinished(b: Block, nins: nat, views: seq<View>)
    requires WellFormed(b) && RunViews(b, nins, views) && !b.outputMultipleSet && views != []
    requires b.fixedRate || b.maxNoutput >= b.outputMultiple
    requires Run(b, nins, views[..|views| - 1]).live
    ensures var k := |views| - 1;
      var o := Iterate(b, views[k].ins, views[k].outs, Run(b, nins, views[..k]).al).0;
      Run(b, nins, views).live <==> !o.Finished? && !o.Throws?
  {
    var k := |views| - 1;
    var s := Run(b, nins, views[..k]);
    AlignmentExactOverRuns(b, nins, views[..k]);
    IterationKeepsBooks(b, views[k].ins, views[k].outs, s.al, s.total);
    if Iterate(b, views[k].ins, views[k].outs, s.al).0.CallWork? {
      WorkIsSafe(b, views[k].ins, views[k].outs, s.al);
    }
  }

  // ------------------------------------------------------------------------------------
  // run_one_iteration
  // ------------------------------------------------------------------------------------

  datatype State = READY | READY_NO_OUTPUT | BLKD_IN | BLKD_OUT | DONE | RAISED

  const WORK_CALLED_PRODUCE := -2
  const WORK_DONE := -1

  /** What work returned, and `d_produce_or` as work's own calls of produce left it. */
  datatype WorkResult = WorkResult(code: int, produceOr: nat)

  /** One-to-one tags need as many inputs as outputs; a sink passes no tags on. */
  predicate TagsRefused(b: Block, nins: nat, nouts: nat) {
    nouts > 0 && b.oneToOneTags && nins != nouts
  }

  /** Work asked for the end, or its tags cannot be passed on. */
  predicate IsOver(b: Block, nins: nat, nouts: nat, w: WorkResult) {
    w.code == WORK_DONE || TagsRefused(b, nins, nouts)
  }

  method CheckForecast(b: Block, ins: seq<InputView>, n: nat) returns (r: InputCheck)
    ensures r == CheckInputs(b, ins, n, 0)
  {
    var i := 0;
    while i < |ins|
      invariant 0 <= i <= |ins| && CheckInputs(b, ins, n, 0) == CheckInputs(b, ins, n, i)
    {
      if b.forecast(n, i) > ins[i].avail {
        return Short(i);
      }
      if b.forecast(n, i) < 0 {
        return Negative(i);
      }
      i := i + 1;
    }
    r := AllMet;
  }

  class Executor {
    const block: Block
    var unaligned: int
    var isUnaligned: bool
    var done: bool

    constructor (block: Block)
      ensures this.block == block && AlignmentNow() == Align(0, false) && !done
    {
      this.block := block;
      unaligned, isUnaligned, done := 0, false, false;
    }

    function AlignmentNow(): Align
      reads this
    {
      Align(unaligned, isUnaligned)
    }

    /** One trip from `try_again` to the forecast, on the block's own alignment fields. */
    method Adjust(maxAvail: nat, n: nat, maxN: nat, newAlignment: int) returns (p: Pass)
      requires WellFormed(block) && AlignOk(block, AlignmentNow())
      modifies this`unaligned, this`isUnaligned
      ensures p == OnePass(block, maxAvail, old(AlignmentNow()), n, maxN, newAlignment)
      ensures p.al == AlignmentNow()
    {
      var a := block.outputMultiple;
      var stage, owed := NotConsidered, newAlignment;
      var m := Clamped(block, maxAvail, n, maxN);
      if !block.outputMultipleSet {
        if isUnaligned {
          if m >= unaligned {
            m := RoundUp(m, a) - (a - unaligned);
            owed := 0;
          } else {
            owed := unaligned - m;
          }
          stage := Realign;
        } else if m < a {
          owed := a - m;
          unaligned, isUnaligned := owed, true;
          stage := Misaligned;
        } else {
          m := RoundDown(m, a);
          isUnaligned := false;
          stage := OnBoundary;
        }
      }
      p := Pass(m, if block.fixedRate then Max(a, maxN) else maxN, owed, stage, AlignmentNow());
    }

    /** What follows a pass that is not retried: a flag that this pass raised is taken back before waiting. */
    method EndPass(ins: seq<InputView>, p: Pass, check: InputCheck) returns (o: Outcome)
      requires p.al == AlignmentNow() && (check.Short? ==> check.at < |ins|)
      modifies this`unaligned, this`isUnaligned
      ensures (o, AlignmentNow()) == Ending(block, ins, p, check)
    {
      match check {
        case AllMet => return CallWork(p.n, p.newAlignment);
        case Negative(_) => return Finished;
        case Short(i) =>
          if ins[i].done || block.forecast(p.n, i) > ins[i].maxPossible {
            return Finished;
          }
          if p.stage == Misaligned {
            unaligned, isUnaligned := 0, false;
          }
          return BlockedIn;
      }
    }

    /** The retry loop, from `try_again` to the call of work or a blocked or finished state. */
    method Retry(ins: seq<InputView>, maxAvail: nat, request: nat, limit: nat) returns (o: Outcome)
      requires WellFormed(block) && AlignOk(block, AlignmentNow())
      requires request % block.outputMultiple == 0 && limit % block.outputMultiple == 0
      modifies this`unaligned, this`isUnaligned
      ensures (o, AlignmentNow()) == TryAgain(block, ins, maxAvail, old(AlignmentNow()), request, limit, 0)
    {
      var n: nat, maxN: nat, newAlignment := request, limit, 0;
      while true
        invariant AlignOk(block, AlignmentNow())
        invariant n % block.outputMultiple == 0 && maxN % block.outputMultiple == 0
        invariant TryAgain(block, ins, maxAvail, AlignmentNow(), n, maxN, newAlignment)
               == TryAgain(block, ins, maxAvail, old(AlignmentNow()), request, limit, 0)
        decreases n
      {
        OnePassOfRetry(block, ins, maxAvail, AlignmentNow(), n, maxN, newAlignment);
        var p := Adjust(maxAvail, n, maxN, newAlignment);
        var check := CheckForecast(block, ins, p.n);
        if !check.Short? || p.n <= block.outputMultiple {
          o := EndPass(ins, p, check);
          return;
        }
        n, maxN, newAlignment := RoundUp(p.n / 2, block.outputMultiple), p.maxN, p.newAlignment;
      }
    }

    /** Up to the call of work: what the snapshots `ins` and `outs` lead to. */
    method BeforeWork(ins: seq<InputView>, outs: seq<OutputView>) returns (o: Outcome)
      requires WellFormed(block) && AlignOk(block, AlignmentNow()) && ViewsOk(outs)
      requires ins != [] || outs != []
      modifies this`unaligned, this`isUnaligned
      ensures (o, AlignmentNow()) == Iterate(block, ins, outs, old(AlignmentNow()))
    {
      var limit := RoundDown(block.maxNoutput, block.outputMultiple);
      if ins != [] && outs == [] {
        for i := 0 to |ins|
          invariant forall j :: 0 <= j < i ==> !(ins[j].avail < block.outputMultiple && ins[j].done)
        {
          if ins[i].avail < block.outputMultiple && ins[i].done {
            return Finished;
          }
        }
        var n := SinkRequest(block, ins);
        if n == 0 {
          return BlockedIn;
        }
        o := Retry(ins, MaxAvail(ins), n, limit);
        return;
      }
      var room := MinAvailableSpace(block, outs);
      match room {
        case OutputTooSmall(_) => return Throws;
        case OutputDone(_) => return Finished;
        case OutputFull(_) => return BlockedOut;
        case Room(_) =>
      }
      if room.n == 0 {
        return BlockedOut;
      }
      if ins == [] {
        o := if Min(room.n, limit) == 0 then BlockedOut else CallWork(Min(room.n, limit), 0);
      } else {
        RoomIsWhole(block, outs);
        o := Retry(ins, MaxAvail(ins), room.n, limit);
      }
    }

    /** Calls work for n items and settles its result. */
    method DoWork(nins: nat, nouts: nat, n: nat, newAlignment: int, work: nat -> WorkResult)
      returns (s: State, advance: nat)
      modifies this`unaligned, this`isUnaligned
      ensures AlignmentNow() == AfterWork(old(AlignmentNow()), newAlignment)
      ensures s == DONE || s == READY || s == READY_NO_OUTPUT
      ensures s == DONE <==> IsOver(block, nins, nouts, work(n))
      ensures s == READY <==> !IsOver(block, nins, nouts, work(n)) && (work(n).code > 0 || work(n).produceOr > 0)
      ensures advance == if work(n).code > 0 && s != DONE then work(n).code else 0
    {
      s, advance := DONE, 0;
      var w := work(n);
      if isUnaligned {
        unaligned := newAlignment;
        isUnaligned := unaligned != 0;
      }
      var propagated := !TagsRefused(block, nins, nouts);
      if propagated && w.code != WORK_DONE {
        var produceOr := w.produceOr;
        if w.code != WORK_CALLED_PRODUCE && w.code > 0 {
          advance := w.code;
          produceOr := produceOr + w.code;
        }
        s := if produceOr > 0 then READY else READY_NO_OUTPUT;
      }
    }

    /**
     One iteration on the snapshots `ins` and `outs`. `request` is the number of items work was
     called for, if it was; `advance` is how far every output was moved after it.
     */
    method RunOneIteration(ins: seq<InputView>, outs: seq<OutputView>, work: nat -> WorkResult)
      returns (s: State, request: int, advance: nat)
      requires WellFormed(block) && AlignOk(block, AlignmentNow()) && ViewsOk(outs) && !done
      requires ins != [] || outs != []
      modifies this
      ensures done == (s == DONE)
      ensures var (o, al) := Iterate(block, ins, outs, old(AlignmentNow()));
        match o
        case CallWork(n, newAlignment) =>
          && request == n
          && AlignmentNow() == AfterWork(al, newAlignment)
          && (s == DONE || s == READY || s == READY_NO_OUTPUT)
          && (s == DONE <==> work(n).code == -1 || (block.oneToOneTags && outs != [] && |ins| != |outs|))
          && (s == READY <==> s != DONE && (work(n).code > 0 || work(n).produceOr > 0))
          && advance == (if work(n).code > 0 && s != DONE then work(n).code else 0)
        case BlockedIn => s == BLKD_IN && request == -1 && advance == 0 && AlignmentNow() == al
        case BlockedOut => s == BLKD_OUT && request == -1 && advance == 0 && AlignmentNow() == al
        case Finished => s == DONE && request == -1 && advance == 0 && AlignmentNow() == al
        case Throws => s == RAISED && request == -1 && advance == 0 && AlignmentNow() == al
    {
      request, advance := -1, 0;
      var o := BeforeWork(ins, outs);
      match o {
        case BlockedIn => s := BLKD_IN;
        case BlockedOut => s := BLKD_OUT;
        case Finished => s := DONE;
        case Throws => s := RAISED;
        case CallWork(n, newAlignment) =>
          request := n;
          s, advance := DoWork(|ins|, |outs|, n, newAlignment, work);
      }
      done := s == DONE;
    }

    /** The next iteration of a run whose work produces what it is asked for. */
    method RunNext(v: View, ghost s: RunState, ghost t: RunState) returns (more: bool, advance: nat)
      requires WellFormed(block) && ViewsOk(v.outs) && (v.ins != [] || v.outs != []) && !done
      requires !TagsRefused(block, |v.ins|, |v.outs|)
      requires s.al == AlignmentNow() && AlignOk(block, s.al) && Follows(block, v, s, t)
      modifies this
      ensures more == t.live && (more ==> !done && t.al == AlignmentNow())
      ensures t.total == s.total + advance
    {
      var end, request;
      end, request, advance := RunOneIteration(v.ins, v.outs, (n: nat) => WorkResult(n, 0));
      more := end != DONE && end != RAISED;
    }

    /** Iterations on one snapshot after the other, while they last. */
    method RunAll(ghost nins: nat, views: seq<View>) returns (advances: seq<nat>)
      requires WellFormed(block) && RunViews(block, nins, views) && !block.outputMultipleSet
      requires forall i :: 0 <= i < |views| ==> !TagsRefused(block, nins, |views[i].outs|)
      requires block.fixedRate || block.maxNoutput >= block.outputMultiple
      requires AlignmentNow() == Align(0, false) && !done
      modifies this
      ensures Total(advances) == Run(block, nins, views).total
      ensures Run(block, nins, views).live ==> AlignmentNow() == Run(block, nins, views).al && |advances| == |views|
    {
      advances := [];
      assert views[..0] == [];
      for i := 0 to |views|
        invariant !done && |advances| == i && RunViews(block, nins, views[..i])
        invariant Run(block, nins, views[..i]) == RunState(AlignmentNow(), Total(advances), true)
      {
        OneMoreView(block, nins, views, i);
        var more, advance := RunNext(views[i], Run(block, nins, views[..i]), Run(block, nins, views[..i + 1]));
        TotalMore(advances, advance);
        advances := advances + [advance];
        if !more {
          StoppedStays(block, nins, views, i + 1);
          return;
        }
      }
      assert views[..|views|] == views;
    }
  }

  function Total(advances: seq<nat>): nat {
    if advances == [] then 0 else Total(advances[..|advances| - 1]) + advances[|advances| - 1]
  }

  lemma TotalMore(advances: seq<nat>, n: nat)
    ensures Total(advances + [n]) == Total(advances) + n
  {
    assert (advances + [n])[..|advances|] == advances;
  }

  /** One iteration on a snapshot leads from s to t, when work produces what it is asked for. */
  ghost predicate Follows(b: Block, v: View, s: RunState, t: RunState)
    requires WellFormed(b) && AlignOk(b, s.al) && ViewsOk(v.outs)
  {
    var r := Iterate(b, v.ins, v.outs, s.al);
    && (t.live <==> !r.0.Finished? && !r.0.Throws?)
    && t.total == s.total + (if r.0.CallWork? then r.0.n else 0)
    && (r.0.CallWork? ==> r.0.n > 0 && t.al == AfterWork(r.1, r.0.newAlignment))
    && (r.0.BlockedIn? || r.0.BlockedOut? ==> t.al == r.1)
  }

  /** The last iteration of a run that lasts until then. */
  lemma LastFollows(b: Block, nins: nat, views: seq<View>)
    requires WellFormed(b) && RunViews(b, nins, views) && !b.outputMultipleSet && views != []
    requires b.fixedRate || b.maxNoutput >= b.outputMultiple
    requires Run(b, nins, views[..|views| - 1]).live
    ensures Follows(b, views[|views| - 1], Run(b, nins, views[..|views| - 1]), Run(b, nins, views))
  {
    RunStopsOnlyWhenFinished(b, nins, views);
    var v, s := views[|views| - 1], Run(b, nins, views[..|views| - 1]);
    var r := Iterate(b, v.ins, v.outs, s.al);
    assert Run(b, nins, views) == Moved(b, s, r.0, r.1);
    if r.0.CallWork? {
      WorkIsSafe(b, v.ins, v.outs, s.al);
    }
    MovedFollows(b, s, r.0, r.1);
  }

  /** The same for an iteration in the middle of a list of snapshots. */
  lemma OneMoreView(b: Block, nins: nat, views: seq<View>, i: nat)
    requires WellFormed(b) && RunViews(b, nins, views) && !b.outputMultipleSet && i < |views|
    requires b.fixedRate || b.maxNoutput >= b.outputMultiple
    requires RunViews(b, nins, views[..i]) && Run(b, nins, views[..i]).live
    ensures RunViews(b, nins, views[..i + 1])
    ensures Follows(b, views[i], Run(b, nins, views[..i]), Run(b, nins, views[..i + 1]))
  {
    var more := views[..i + 1];
    assert more[..|more| - 1] == views[..i] && more[|more| - 1] == views[i];
    LastFollows(b, nins, more);
  }

  lemma MovedFollows(b: Block, s: RunState, o: Outcome, al: Align)
    requires AlignOk(b, s.al) && (Moved(b, s, o, al).live <==> !o.Finished? && !o.Throws?)
    ensures var t := Moved(b, s, o, al);
      && (o.CallWork? && o.n > 0 ==> t.total == s.total + o.n && t.al == AfterWork(al, o.newAlignment))
      && (o.BlockedIn? || o.BlockedOut? ==> t.al == al)
      && (!o.CallWork? ==> t.total == s.total)
  {
  }

  lemma {:induction false} StoppedStays(b: Block, nins: nat, views: seq<View>, i: nat)
    requires WellFormed(b) && RunViews(b, nins, views) && i <= |views|
    requires RunViews(b, nins, views[..i]) && !Run(b, nins, views[..i]).live
    ensures Run(b, nins, views) == Run(b, nins, views[..i])
    decreases |views|
  {
    if i < |views| {
      var k := |views| - 1;
      assert views[..k][..i] == views[..i];
      StoppedStays(b, nins, views[..k], i);
    } else {
      assert views[..i] == views;
    }
  }
}

/**
 Synchronous blocks: one output item for a fixed number of input items, or the other way round,
 with `history - 1` old items kept in front of every input.
 */
module SyncBlocks {
  import opened Rounding
  import opened BlockExecutor
  import Progress

  datatype Kind = Sync | Decimator(decimation: nat) | Interpolator(interpolation: nat)

  predicate KindOk(k: Kind) {
    (k.Decimator? ==> k.decimation >= 1) && (k.Interpolator? ==> k.interpolation >= 1)
  }

  function NoutputToNinput(k: Kind, history: nat, n: nat): int
    requires KindOk(k)
  {
    match k
    case Sync => n + history - 1
    case Decimator(d) => n * d + history - 1
    case Interpolator(i) => n / i + history - 1
  }

  function NinputToNoutput(k: Kind, history: nat, n: nat): nat
    requires KindOk(k)
  {
    var usable := Max(0, n - history + 1);
    match k
    case Sync => usable
    case Decimator(d) => usable / d
    case Interpolator(i) => usable * i
  }

  /** What general_work consumes from each input when work returned r. */
  function Consumption(k: Kind, r: nat): nat
    requires KindOk(k)
  {
    match k
    case Sync => r
    case Decimator(d) => r * d
    case Interpolator(i) => r / i
  }

  method Forecast(k: Kind, history: nat, n: nat, ninputs: nat) returns (required: seq<int>)
    requires KindOk(k)
    ensures |required| == ninputs
    ensures forall i :: 0 <= i < ninputs ==> required[i] == NoutputToNinput(k, history, n)
  {
    required := seq(ninputs, _ => 0);
    for i := 0 to ninputs
      invariant |required| == ninputs
      invariant forall j :: 0 <= j < i ==> required[j] == NoutputToNinput(k, history, n)
    {
      required := required[i := NoutputToNinput(k, history, n)];
    }
  }

  /**
   The two conversions fit together: `avail` items cover the forecast of n outputs exactly when n
   is at most what they convert to. The one exception is an interpolator asked for part of a
   group more than its items cover, where the truncated forecast hides the missing item.
   */
  lemma ConversionsFit(k: Kind, history: nat, avail: nat, n: nat)
    requires KindOk(k) && history >= 1 && n >= 1
    ensures NoutputToNinput(k, history, n) <= avail <==>
              || n <= NinputToNoutput(k, history, avail)
              || (k.Interpolator? && n % k.interpolation != 0 && n / k.interpolation == avail - history + 1)
  {
    var usable := Max(0, avail - history + 1);
    match k {
      case Sync =>
      case Decimator(d) => ProductFits(n, d, usable); ProductAtLeast(n, d);
      case Interpolator(i) => QuotientFits(n, i, usable);
    }
  }

  lemma ProductFits(n: nat, d: nat, a: nat)
    requires d >= 1
    ensures n * d <= a <==> n <= a / d
  {
    var q := a / d;
    assert a == q * d + a % d;
    if n <= q {
      Progress.MulMonotone(n, q, d);
    } else {
      Progress.MulMonotone(q + 1, n, d);
      Distribute(q, 1, d);
    }
  }

  lemma QuotientFits(n: nat, i: nat, a: nat)
    requires i >= 1
    ensures n / i <= a <==> n <= a * i || (n % i != 0 && n / i == a)
  {
    var q := n / i;
    assert n == q * i + n % i;
    if q < a {
      Progress.MulMonotone(q + 1, a, i);
      Distribute(q, 1, i);
    } else if q > a {
      Progress.MulMonotone(a + 1, q, i);
      Distribute(a, 1, i);
    }
  }

  /** A block of this kind, as the scheduler sees it. */
  ghost predicate Behaves(b: Block, k: Kind, history: nat) {
    && KindOk(k) && WellFormed(b) && history >= 1 && b.fixedRate
    && (forall n: nat, i: nat :: b.forecast(n, i) == NoutputToNinput(k, history, n))
    && (forall a: nat :: b.inputToOutput(a) == NinputToNoutput(k, history, a))
    && match k
       case Sync => b.rateNum == b.rateDen == 1
       case Decimator(d) => b.rateNum == 1 && b.rateDen == d
       case Interpolator(i) =>
         b.rateNum == i && b.rateDen == 1 && b.outputMultipleSet && b.outputMultiple % i == 0
  }

  lemma ConsumptionMonotone(k: Kind, r: nat, n: nat)
    requires KindOk(k) && r <= n
    ensures Consumption(k, r) <= Consumption(k, n)
  {
    match k {
      case Sync =>
      case Decimator(d) => Progress.MulMonotone(r, n, d);
      case Interpolator(i) =>
        assert r == (r / i) * i + r % i;
        ProductFits(r / i, i, n);
    }
  }

  /** What is consumed for an output is what it was forecast to take, but for the history, which stays. */
  lemma ConsumedIsForecast(k: Kind, history: nat, r: nat)
    requires KindOk(k)
    ensures NoutputToNinput(k, history, r) == Consumption(k, r) + history - 1
    ensures k.Decimator? ==> Consumption(k, r) == k.decimation * r
    ensures k.Interpolator? ==> k.interpolation * Consumption(k, r) <= r < k.interpolation * (Consumption(k, r) + 1)
    ensures k.Sync? ==> Consumption(k, r) == r
  {
    if k.Interpolator? {
      var i := k.interpolation;
      assert r == (r / i) * i + r % i;
      Distribute(r / i, 1, i);
    }
  }

  /** However little of the request work delivers, every input keeps its history. */
  lemma HistoryIsKept(b: Block, k: Kind, history: nat, ins: seq<InputView>, outs: seq<OutputView>, al: Align, r: nat)
    requires Behaves(b, k, history) && AlignOk(b, al) && ViewsOk(outs) && ins != []
    requires Iterate(b, ins, outs, al).0.CallWork? && r <= Iterate(b, ins, outs, al).0.n
    ensures forall i :: 0 <= i < |ins| ==> ins[i].avail - Consumption(k, r) >= history - 1
  {
    WorkIsSafe(b, ins, outs, al);
    ConsumptionMonotone(k, r, Iterate(b, ins, outs, al).0.n);
  }

  /** These blocks meet the conditions under which the scheduler is proved never to hang. */
  lemma SyncBlocksAreFrugal(b: Block, k: Kind, history: nat)
    requires Behaves(b, k, history)
    ensures Progress.Monotone(b) && Progress.Frugal(b, history)
  {
    forall n: nat, m: nat, i: nat | n <= m ensures 0 <= b.forecast(n, i) <= b.forecast(m, i) {
      ConsumptionMonotone(k, n, m);
    }
    if k.Interpolator? {
      var i, a := k.interpolation, b.outputMultiple;
      assert a == (a / i) * i + a % i;
      Distribute(a / i, 1 - history, i);
      assert (a / i + history - 1) * i == (a / i) * i + (history - 1) * i;
    }
  }

  lemma MetAtOnce(b: Block, ins: seq<InputView>, maxAvail: nat, al: Align, n: nat, maxN: nat)
    requires WellFormed(b) && AlignOk(b, al) && n % b.outputMultiple == 0 && maxN % b.outputMultiple == 0
    requires CheckInputs(b, ins, OnePass(b, maxAvail, al, n, maxN, 0).n, 0).AllMet?
    ensures |Requests(b, ins, maxAvail, al, n, maxN, 0)| == 1
    ensures TryAgain(b, ins, maxAvail, al, n, maxN, 0).0.CallWork?
  {
  }

  /** With one input, a request its items can meet is met on the first pass. */
  lemma FixedRateNeedsNoRetry(b: Block, k: Kind, history: nat, ins: seq<InputView>, n: nat, maxN: nat, al: Align)
    requires Behaves(b, k, history) && AlignOk(b, al) && !al.isUnaligned && |ins| == 1
    requires n > 0 && n % b.outputMultiple == 0 && maxN % b.outputMultiple == 0
    requires NinputToNoutput(k, history, ins[0].avail) >= b.outputMultiple
    ensures |Requests(b, ins, ins[0].avail, al, n, maxN, 0)| == 1
    ensures TryAgain(b, ins, ins[0].avail, al, n, maxN, 0).0.CallWork?
  {
    FirstForecastMet(b, k, history, ins[0].avail, n, maxN, al);
    MetAtOnce(b, ins, ins[0].avail, al, n, maxN);
  }

  lemma FirstForecastMet(b: Block, k: Kind, history: nat, avail: nat, n: nat, maxN: nat, al: Align)
    requires Behaves(b, k, history) && AlignOk(b, al) && !al.isUnaligned
    requires n > 0 && n % b.outputMultiple == 0 && maxN % b.outputMultiple == 0
    requires NinputToNoutput(k, history, avail) >= b.outputMultiple
    ensures 0 <= b.forecast(OnePass(b, avail, al, n, maxN, 0).n, 0) <= avail
  {
    RequestWithinConversion(b, k, history, avail, n, maxN, al);
    ForecastFits(b, k, history, avail, OnePass(b, avail, al, n, maxN, 0).n);
  }

  /** A request within the conversion of the items there has its forecast met by them. */
  lemma ForecastFits(b: Block, k: Kind, history: nat, avail: nat, n: nat)
    requires Behaves(b, k, history) && 0 < n <= NinputToNoutput(k, history, avail)
    ensures 0 <= b.forecast(n, 0) <= avail
  {
    ConversionsFit(k, history, avail, n);
    assert b.forecast(n, 0) == NoutputToNinput(k, history, n);
  }

  lemma RequestWithinConversion(b: Block, k: Kind, history: nat, avail: nat, n: nat, maxN: nat, al: Align)
    requires Behaves(b, k, history) && AlignOk(b, al) && !al.isUnaligned
    requires n > 0 && n % b.outputMultiple == 0 && maxN % b.outputMultiple == 0
    requires NinputToNoutput(k, history, avail) >= b.outputMultiple
    ensures 0 < OnePass(b, avail, al, n, maxN, 0).n <= NinputToNoutput(k, history, avail)
  {
    var a, most := b.outputMultiple, NinputToNoutput(k, history, avail);
    MultipleDivides(1, a);
    RoundDownGreatest(most, a, a);
    assert FixedRateRequest(b, avail, n) <= most;
    PassShrinks(b, avail, al, n, maxN, 0);
  }
}

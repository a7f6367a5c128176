/**
 The scheduler does not hang while it shuts down either. Whatever is marked done, if every thread
 waits or has ended and one has not, some thread waits with a timeout and its next iteration calls
 work or finishes the block, but for one kind of sink.
 */
module Shutdown {
  import opened Rounding
  import opened BlockExecutor
  import opened ThreadScheduler
  import opened Progress
  import BufferSizing
  import Liveness

  // ------------------------------------------------------------------------------------
  // An input that is done blocks nobody, but for a sink
  // ------------------------------------------------------------------------------------

  /** Calls work, or finishes the block. */
  predicate Proceeds(o: Outcome) {
    o.CallWork? || o.Finished?
  }

  lemma {:induction false} DoneInputsEndRetry(b: Block, ins: seq<InputView>, maxAvail: nat, al: Align, n: nat,
                                              maxN: nat, newAlignment: int)
    requires WellFormed(b) && AlignOk(b, al) && forall i :: 0 <= i < |ins| ==> ins[i].done
    requires n % b.outputMultiple == 0 && maxN % b.outputMultiple == 0
    ensures Proceeds(TryAgain(b, ins, maxAvail, al, n, maxN, newAlignment).0)
    decreases n
  {
    OnePassOfRetry(b, ins, maxAvail, al, n, maxN, newAlignment);
    var p := OnePass(b, maxAvail, al, n, maxN, newAlignment);
    if CheckInputs(b, ins, p.n, 0).Short? && p.n > b.outputMultiple {
      HalvingDecreases(b, p.n);
      DoneInputsEndRetry(b, ins, maxAvail, p.al, RoundUp(p.n / 2, b.outputMultiple), p.maxN, p.newAlignment);
    }
  }

  /** No input has run dry of whole multiples, and yet its relative rate makes nothing of what is there. */
  predicate HopesForMore(b: Block, ins: seq<InputView>)
    requires WellFormed(b)
  {
    !SomeInputDry(b, ins) && SinkRequest(b, ins) == 0
  }

  /** A sink whose inputs are all done waits for more if and only if it hopes for more. */
  lemma DoneSinkWaitsExactlyWhen(b: Block, ins: seq<InputView>, al: Align)
    requires WellFormed(b) && AlignOk(b, al) && ins != [] && forall i :: 0 <= i < |ins| ==> ins[i].done
    ensures var o := Iterate(b, ins, [], al).0;
            (o.BlockedIn? <==> HopesForMore(b, ins)) && (!o.BlockedIn? <==> Proceeds(o))
  {
    if !HopesForMore(b, ins) && !SomeInputDry(b, ins) {
      WholeMaxPositive(b);
      DoneInputsEndRetry(b, ins, MaxAvail(ins), al, SinkRequest(b, ins), WholeMax(b), 0);
    }
  }

  /** A sink that takes ten items at a time waits for more than the five that are left. */
  lemma DoneSinkCanWait() returns (b: Block, ins: seq<InputView>)
    ensures WellFormed(b) && |ins| == 1 && ins[0].done && HopesForMore(b, ins)
    ensures Iterate(b, ins, [], Align(0, false)).0.BlockedIn?
  {
    b := Block(1, false, 0, 100, false, (a: nat) => a, (n: nat, i: nat) => 10 * n, 1, 10, false);
    ins := [InputView(5, true, 100)];
    MaxAvailIsMax(ins);
    assert MaxAvail(ins) == 5;
  }

  /** Sinks that do not reduce their rate never do. */
  lemma SteadySinkNeverHopes(b: Block, ins: seq<InputView>)
    requires WellFormed(b) && |ins| == 1 && ins[0].done && b.rateDen <= b.rateNum && b.outputMultiple <= b.maxNoutput
    ensures !HopesForMore(b, ins)
  {
    if ins[0].avail >= b.outputMultiple {
      MulMonotone(b.rateDen, b.rateNum, ins[0].avail);
      MulMonotone(b.outputMultiple, ins[0].avail, b.rateDen);
      assert ins[0].avail * b.rateNum >= b.rateDen * b.outputMultiple;
      SinkHasRequest(b, ins);
    } else {
      assert ins[0].avail < b.outputMultiple && ins[0].done;
    }
  }

  // ------------------------------------------------------------------------------------
  // A supplied block proceeds, or has a full output
  // ------------------------------------------------------------------------------------

  ghost predicate InputDone(g: Graph, m: Buffers, t: nat)
    requires GraphOk(g) && Shaped(g, m) && t < |g.nodes|
  {
    NumIn(g, t) == 1 && IsInput(g, t, 0) && IsDone(g, m, Source(g, t, 0).block, Source(g, t, 0).port)
  }

  /** A source, or a block with half a buffer to read, or one whose input is done. */
  ghost predicate Supplied(g: Graph, m: Buffers, t: nat)
    requires GraphOk(g) && Shaped(g, m) && t < |g.nodes|
  {
    NumIn(g, t) == 0 || Progress.Fed(g, m, t) || InputDone(g, m, t)
  }

  ghost predicate HopefulSink(g: Graph, m: Buffers, t: nat)
    requires GraphOk(g) && Shaped(g, m) && t < |g.nodes|
  {
    NumOut(g, t) == 0 && InputDone(g, m, t) && HopesForMore(Exec(g, t), InViews(g, m, t))
  }

  /** An iteration on the present contents of the buffers calls work or finishes the block. */
  ghost predicate CanProceed(g: Graph, m: Buffers, t: nat, al: Align) {
    GraphOk(g) && Shaped(g, m) && t < |g.nodes| && AlignOk(Exec(g, t), al) &&
    Proceeds(Iterate(Exec(g, t), InViews(g, m, t), OutViews(g, m, t), al).0)
  }

  /** A request that the retries start from: a sink's own, or the room of the outputs. */
  ghost predicate StartsFrom(g: Graph, m: Buffers, t: nat, al: Align, n: nat)
    requires GraphOk(g) && Shaped(g, m) && t < |g.nodes| && AlignOk(Exec(g, t), al)
  {
    var b, ins := Exec(g, t), InViews(g, m, t);
    && n % b.outputMultiple == 0 && WholeMax(b) % b.outputMultiple == 0
    && Iterate(b, ins, OutViews(g, m, t), al) == TryAgain(b, ins, MaxAvail(ins), al, n, WholeMax(b), 0)
  }

  lemma SuppliedRetryProceeds(g: Graph, m: Buffers, rank: seq<nat>, t: nat, al: Align, n: nat)
    requires Provisioned(g, rank) && Shaped(g, m) && t < |g.nodes| && AlignOk(Exec(g, t), al)
    requires StartsFrom(g, m, t, al, n) && (Progress.Fed(g, m, t) || InputDone(g, m, t))
    ensures CanProceed(g, m, t, al)
  {
    var b, ins := Exec(g, t), InViews(g, m, t);
    assert ins[0] == InView(g, m, t, 0);
    if Progress.Fed(g, m, t) {
      FedMeetsForecast(g, m, rank, t);
      FedRequestIsMet(b, ins, MaxAvail(ins), al, n, WholeMax(b), 0);
    } else {
      DoneInputsEndRetry(b, ins, MaxAvail(ins), al, n, WholeMax(b), 0);
    }
  }

  lemma FedSinkAsks(g: Graph, m: Buffers, rank: seq<nat>, t: nat)
    requires Provisioned(g, rank) && Shaped(g, m) && t < |g.nodes|
    requires Progress.Fed(g, m, t) && !InputDone(g, m, t) && NumOut(g, t) == 0
    ensures |InViews(g, m, t)| == 1 && !SomeInputDry(Exec(g, t), InViews(g, m, t))
    ensures SinkRequest(Exec(g, t), InViews(g, m, t)) > 0
  {
    var ins := InViews(g, m, t);
    assert ins[0] == InView(g, m, t, 0) && !ins[0].done;
    FedMeetsForecast(g, m, rank, t);
    SinkHasRequest(Exec(g, t), ins);
  }

  lemma FedSinkStarts(g: Graph, m: Buffers, rank: seq<nat>, t: nat, al: Align)
    requires Provisioned(g, rank) && Shaped(g, m) && t < |g.nodes| && AlignOk(Exec(g, t), al)
    requires Progress.Fed(g, m, t) && !InputDone(g, m, t) && NumOut(g, t) == 0
    ensures StartsFrom(g, m, t, al, SinkRequest(Exec(g, t), InViews(g, m, t)))
  {
    FedSinkAsks(g, m, rank, t);
    SinkStarts(Exec(g, t), InViews(g, m, t), al);
    assert OutViews(g, m, t) == [];
  }

  lemma FedSink(g: Graph, m: Buffers, rank: seq<nat>, t: nat, al: Align)
    requires Provisioned(g, rank) && Shaped(g, m) && t < |g.nodes| && AlignOk(Exec(g, t), al)
    requires Progress.Fed(g, m, t) && !InputDone(g, m, t) && NumOut(g, t) == 0
    ensures CanProceed(g, m, t, al)
  {
    FedSinkStarts(g, m, rank, t, al);
    SuppliedRetryProceeds(g, m, rank, t, al, SinkRequest(Exec(g, t), InViews(g, m, t)));
  }

  /** A sink that is not dry and asks for something starts its retries from what it asks for. */
  lemma SinkStarts(b: Block, ins: seq<InputView>, al: Align)
    requires WellFormed(b) && AlignOk(b, al) && ins != [] && !SomeInputDry(b, ins) && SinkRequest(b, ins) > 0
    ensures SinkRequest(b, ins) % b.outputMultiple == 0 && WholeMax(b) % b.outputMultiple == 0
    ensures Iterate(b, ins, [], al) == TryAgain(b, ins, MaxAvail(ins), al, SinkRequest(b, ins), WholeMax(b), 0)
  {
  }

  lemma DoneSink(g: Graph, m: Buffers, t: nat, al: Align)
    requires GraphOk(g) && Shaped(g, m) && t < |g.nodes| && AlignOk(Exec(g, t), al)
    requires InputDone(g, m, t) && NumOut(g, t) == 0
    ensures CanProceed(g, m, t, al) || HopefulSink(g, m, t)
  {
    var ins := InViews(g, m, t);
    assert ins == [InView(g, m, t, 0)] && OutViews(g, m, t) == [];
    DoneSinkWaitsExactlyWhen(Exec(g, t), ins, al);
  }

  lemma SuppliedSink(g: Graph, m: Buffers, rank: seq<nat>, t: nat, al: Align)
    requires Provisioned(g, rank) && Shaped(g, m) && t < |g.nodes| && AlignOk(Exec(g, t), al)
    requires Supplied(g, m, t) && NumOut(g, t) == 0
    ensures CanProceed(g, m, t, al) || HopefulSink(g, m, t)
  {
    if InputDone(g, m, t) {
      DoneSink(g, m, t, al);
    } else {
      FedSink(g, m, rank, t, al);
    }
  }

  lemma SuppliedWithRoom(g: Graph, m: Buffers, rank: seq<nat>, t: nat, al: Align)
    requires Provisioned(g, rank) && Shaped(g, m) && t < |g.nodes| && AlignOk(Exec(g, t), al)
    requires Supplied(g, m, t) && NumOut(g, t) > 0 && MinSpace(Exec(g, t), OutViews(g, m, t)).Room?
    ensures CanProceed(g, m, t, al)
  {
    var b, outs := Exec(g, t), OutViews(g, m, t);
    RoomIsWhole(b, outs);
    WholeMaxPositive(b);
    if NumIn(g, t) > 0 {
      assert InViews(g, m, t) != [];
      assert StartsFrom(g, m, t, al, MinSpace(b, outs).n);
      SuppliedRetryProceeds(g, m, rank, t, al, MinSpace(b, outs).n);
    } else {
      assert InViews(g, m, t) == [];
    }
  }

  lemma NothingTooSmall(g: Graph, m: Buffers, rank: seq<nat>, t: nat, p: nat)
    requires Provisioned(g, rank) && Shaped(g, m) && IsOutput(g, t, p)
    ensures !CheckOutput(Exec(g, t), OutView(g, m, t, p)).TooSmall?
  {
    var b := Exec(g, t);
    MultipleDivides(1, b.outputMultiple);
    assert BufSize(g, t, p) >= 2 * b.outputMultiple;
    RoundDownGreatest(BufSize(g, t, p) / 2, b.outputMultiple, b.outputMultiple);
  }

  lemma SuppliedProceedsOrIsFull(g: Graph, m: Buffers, rank: seq<nat>, t: nat, al: Align) returns (full: bool, p: nat)
    requires Provisioned(g, rank) && Shaped(g, m) && t < |g.nodes| && AlignOk(Exec(g, t), al) && Supplied(g, m, t)
    ensures full ==> StillFull(g, m, t, p)
    ensures !full ==> CanProceed(g, m, t, al) || HopefulSink(g, m, t)
  {
    var b, outs := Exec(g, t), OutViews(g, m, t);
    full, p := false, 0;
    if NumOut(g, t) == 0 {
      SuppliedSink(g, m, rank, t, al);
    } else if MinSpace(b, outs).Room? {
      SuppliedWithRoom(g, m, rank, t, al);
    } else {
      FirstBlockedDecides(b, outs);
      p := MinSpace(b, outs).at;
      assert outs[p] == OutView(g, m, t, p);
      NothingTooSmall(g, m, rank, t, p);
      full := MinSpace(b, outs).OutputFull?;
    }
  }

  // ------------------------------------------------------------------------------------
  // Among threads that wait or have ended
  // ------------------------------------------------------------------------------------

  ghost predicate Quiet(g: Graph, s: Sys)
    requires SysOk(g, s)
  {
    forall t :: 0 <= t < |g.nodes| ==> Waiting(s.threads[t]) || s.threads[t].pc.Dead?
  }

  ghost predicate Alive(s: Sys, t: nat) {
    t < |s.threads| && !s.threads[t].pc.Dead?
  }

  /** The buffers around an ended block are done. */
  lemma DeadIsMarked(g: Graph, s: Sys, t: nat, k: nat)
    requires Inv(g, s) && t < |g.nodes| && s.threads[t].pc.Dead? && k < NumOut(g, t) + NumIn(g, t)
    ensures var b := Marked(g, t, k); IsOutput(g, b.block, b.port) && IsDone(g, s.mem, b.block, b.port)
  {
    assert PcOk(g, s.mem, t, s.threads[t]);
  }

  /** Above every live block is a live one that is a source, or whose input is done. */
  lemma {:induction false} SuppliedAbove(g: Graph, s: Sys, rank: seq<nat>, t: nat) returns (r: nat)
    requires Provisioned(g, rank) && Inv(g, s) && t < |g.nodes| && Alive(s, t)
    ensures r < |g.nodes| && Alive(s, r) && Supplied(g, s.mem, r)
    decreases rank[t]
  {
    r := t;
    if NumIn(g, t) > 0 {
      assert IsInput(g, t, 0);
      var src := Source(g, t, 0);
      if s.threads[src.block].pc.Dead? {
        DeadIsMarked(g, s, src.block, src.port);
      } else {
        r := SuppliedAbove(g, s, rank, src.block);
      }
    }
  }

  /** The slowest reader of a full output is fed, further downstream, and has not ended. */
  lemma FullFeedsTheLiving(g: Graph, s: Sys, rank: seq<nat>, w: nat, p: nat) returns (r: nat)
    requires Provisioned(g, rank) && Inv(g, s) && StillFull(g, s.mem, w, p)
    ensures r < |g.nodes| && Alive(s, r) && Progress.Fed(g, s.mem, r) && rank[w] < rank[r]
  {
    r := FullOutputFeeds(g, s.mem, rank, w, p);
    if s.threads[r].pc.Dead? {
      DeadIsMarked(g, s, r, NumOut(g, r));
      assert false;
    }
  }

  lemma QuietOwesNothing(g: Graph, s: Sys, w: nat, p: nat)
    requires SysOk(g, s) && Quiet(g, s)
    ensures !SomeoneOwes(g, s, w, p)
  {
  }

  /** A live thread that does not wait for input waits for an output that is still full. */
  lemma WaitsForFull(g: Graph, s: Sys, rank: seq<nat>, t: nat)
    requires Provisioned(g, rank) && Inv(g, s) && Quiet(g, s) && t < |g.nodes| && Alive(s, t)
    ensures s.threads[t].pc.WaitIn? || (s.threads[t].pc.WaitOut? && StillFull(g, s.mem, t, s.threads[t].pc.at))
  {
    NeverCrashes(g, s, rank, t);
    assert Warranted(g, s, t);
    if s.threads[t].pc.WaitOut? {
      QuietOwesNothing(g, s, t, s.threads[t].pc.at);
    }
  }

  /** It waits for input, with a timeout; its next iteration proceeds, unless it is a hopeful sink. */
  ghost predicate GoesOn(g: Graph, s: Sys, r: nat)
    requires SysOk(g, s)
  {
    && r < |g.nodes| && s.threads[r].pc.WaitIn?
    && (CanProceed(g, s.mem, r, AlOf(s, r)) || HopefulSink(g, s.mem, r))
  }

  lemma {:induction false} DownstreamGoesOn(g: Graph, s: Sys, rank: seq<nat>, t: nat) returns (r: nat)
    requires Provisioned(g, rank) && Inv(g, s) && Quiet(g, s)
    requires t < |g.nodes| && Alive(s, t) && Supplied(g, s.mem, t)
    ensures GoesOn(g, s, r)
    decreases |g.nodes| - rank[t]
  {
    WaitsForFull(g, s, rank, t);
    assert PcOk(g, s.mem, t, s.threads[t]);
    var full, p := true, 0;
    if s.threads[t].pc.WaitOut? {
      p := s.threads[t].pc.at;
    } else {
      full, p := SuppliedProceedsOrIsFull(g, s.mem, rank, t, AlOf(s, t));
    }
    if full {
      var next := FullFeedsTheLiving(g, s, rank, t, p);
      r := DownstreamGoesOn(g, s, rank, next);
    } else {
      r := t;
    }
  }

  /**
   In every state of every run, whatever is marked done: every thread has ended, or some thread is
   awake, or some thread is in a timed wait and its next iteration calls work or finishes its block -
   or it is a sink that hopes for more than what its finished input has left.
   */
  lemma NeverHangsWhileEnding(g: Graph, states: seq<Sys>, moves: seq<Move>, k: nat, rank: seq<nat>) returns (r: nat)
    requires Provisioned(g, rank) && IsRun(g, states, moves) && k < |states|
    requires exists t: nat :: t < |g.nodes| && Alive(states[k], t)
    ensures Inv(g, states[k]) && r < |g.nodes| && Alive(states[k], r)
    ensures !Waiting(states[k].threads[r]) || GoesOn(g, states[k], r)
  {
    RunKeepsInv(g, states, moves, k);
    var s := states[k];
    if t: nat :| t < |g.nodes| && Alive(s, t) && !Waiting(s.threads[t]) {
      r := t;
    } else {
      var t: nat :| t < |g.nodes| && Alive(s, t);
      var top := SuppliedAbove(g, s, rank, t);
      r := DownstreamGoesOn(g, s, rank, top);
    }
  }

  /** Where no sink reduces its rate, that thread's next iteration calls work or finishes its block. */
  lemma SteadySinksProceed(g: Graph, s: Sys, rank: seq<nat>, r: nat)
    requires Provisioned(g, rank) && Inv(g, s) && GoesOn(g, s, r)
    requires NumOut(g, r) == 0 ==> Exec(g, r).rateDen <= Exec(g, r).rateNum
    ensures CanProceed(g, s.mem, r, AlOf(s, r))
  {
    if HopefulSink(g, s.mem, r) {
      assert InViews(g, s.mem, r)[0] == InView(g, s.mem, r, 0);
      SteadySinkNeverHopes(Exec(g, r), InViews(g, s.mem, r));
    }
  }

  // ------------------------------------------------------------------------------------
  // The one that never ends
  // ------------------------------------------------------------------------------------

  /** A hopeful sink whose input's writer has ended, on its way from one timed wait to the next. */
  ghost predicate LeftHoping(g: Graph, s: Sys, r: nat) {
    && SysOk(g, s) && r < |g.nodes| && AlignOk(Exec(g, r), s.threads[r].al)
    && HopefulSink(g, s.mem, r) && s.threads[Source(g, r, 0).block].pc.Dead?
    && match s.threads[r].pc
       case WaitIn(_) => true
       case Top => true
       case ReadingInputs(ins) => ins == [] || ins == InViews(g, s.mem, r)
       case _ => false
  }

  /** The one view of a block's input is the same before and after. */
  ghost predicate SameInput(g: Graph, m: Buffers, m': Buffers, r: nat)
    requires GraphOk(g) && Shaped(g, m) && r < |g.nodes|
  {
    Shaped(g, m') && InputDone(g, m', r) && InViews(g, m', r) == InViews(g, m, r)
  }

  lemma SameItems(g: Graph, m: Buffers, m': Buffers, r: nat)
    requires GraphOk(g) && Shaped(g, m) && Shaped(g, m') && r < |g.nodes|
    requires InputDone(g, m, r) && InputDone(g, m', r) && Avail(g, m', r, 0) == Avail(g, m, r, 0)
    ensures SameInput(g, m, m', r)
  {
    assert InView(g, m', r, 0) == InView(g, m, r, 0);
    assert InViews(g, m, r) == [InView(g, m, r, 0)] && InViews(g, m', r) == [InView(g, m', r, 0)];
  }

  lemma ConsumeLeavesInput(g: Graph, s: Sys, u: nat, i: nat, n: nat, s': Sys, r: nat)
    requires SysOk(g, s) && u < |g.nodes| && ConsumeStep(g, s, u, i, n, s') && u != r && r < |g.nodes|
    requires InputDone(g, s.mem, r)
    ensures SysOk(g, s') && SameInput(g, s.mem, s'.mem, r)
  {
    ConsumedAvail(g, s, u, i, n, s');
    SameItems(g, s.mem, s'.mem, r);
  }

  lemma ProduceLeavesInput(g: Graph, s: Sys, u: nat, o: nat, n: nat, s': Sys, r: nat)
    requires SysOk(g, s) && u < |g.nodes| && ProduceStep(g, s, u, o, n, s') && r < |g.nodes|
    requires InputDone(g, s.mem, r) && Source(g, r, 0).block != u
    ensures SysOk(g, s') && SameInput(g, s.mem, s'.mem, r)
  {
    ProducedAvail(g, s, u, o, n, s');
    SameItems(g, s.mem, s'.mem, r);
  }

  lemma MarkLeavesInput(g: Graph, s: Sys, u: nat, s': Sys, r: nat)
    requires SysOk(g, s) && u < |g.nodes| && MarkDoneStep(g, s, u, s') && r < |g.nodes| && InputDone(g, s.mem, r)
    ensures SysOk(g, s') && SameInput(g, s.mem, s'.mem, r)
  {
    if s.threads[u].pc.k < NumOut(g, u) + NumIn(g, u) {
      MarkEffect(g, s, u, s');
    }
    SameItems(g, s.mem, s'.mem, r);
  }

  /** No other thread changes what is there for it. */
  lemma OthersLeaveItsInput(g: Graph, s: Sys, u: nat, a: Action, s': Sys, r: nat)
    requires Inv(g, s) && Step(g, s, u, a, s') && LeftHoping(g, s, r) && u != r
    ensures SysOk(g, s') && SameInput(g, s.mem, s'.mem, r)
  {
    match a {
      case Consume(i, n) => ConsumeLeavesInput(g, s, u, i, n, s', r);
      case Produce(o, n) => ProduceLeavesInput(g, s, u, o, n, s', r);
      case MarkDone => MarkLeavesInput(g, s, u, s', r);
      case _ =>
        StepKeepsPcs(g, s, u, a, s');
        assert s'.mem == s.mem;
    }
  }

  /** Its own steps lead it round and round. */
  lemma ItsStepsGoRound(g: Graph, s: Sys, a: Action, s': Sys, r: nat)
    requires Step(g, s, r, a, s') && LeftHoping(g, s, r)
    ensures LeftHoping(g, s', r)
  {
    var ins := InViews(g, s.mem, r);
    assert ins == [InView(g, s.mem, r, 0)];
    if a.ReadInput? && s.threads[r].pc.ins == ins {
      DoneSinkWaitsExactlyWhen(Exec(g, r), ins, s.threads[r].al);
      SinkLeavesAlignment(Exec(g, r), ins, s.threads[r].al);
    }
  }

  lemma SinkLeavesAlignment(b: Block, ins: seq<InputView>, al: Align)
    requires WellFormed(b) && AlignOk(b, al) && ins != [] && HopesForMore(b, ins)
    ensures Iterate(b, ins, [], al) == (BlockedIn, al)
  {
  }

  lemma StepLeavesItHoping(g: Graph, s: Sys, u: nat, a: Action, s': Sys, r: nat)
    requires Inv(g, s) && Step(g, s, u, a, s') && LeftHoping(g, s, r)
    ensures LeftHoping(g, s', r)
  {
    if u == r {
      ItsStepsGoRound(g, s, a, s', r);
    } else {
      OthersLeaveItsInput(g, s, u, a, s', r);
      Liveness.OthersStay(g, s, u, a, s', r);
      Liveness.OthersStayEnded(g, s, u, a, s', Source(g, r, 0).block);
    }
  }

  lemma MoveLeavesItHoping(g: Graph, states: seq<Sys>, moves: seq<Move>, k: nat, r: nat)
    requires IsRun(g, states, moves) && k < |moves| && LeftHoping(g, states[k], r)
    ensures LeftHoping(g, states[k + 1], r)
  {
    Liveness.RunStep(g, states, moves, k);
    StepLeavesItHoping(g, states[k], moves[k].thread, moves[k].action, states[k + 1], r);
  }

  /** From then on, in every run, its thread neither ends nor calls work again. */
  lemma {:induction false} HopesForEver(g: Graph, states: seq<Sys>, moves: seq<Move>, k: nat, j: nat, r: nat)
    requires IsRun(g, states, moves) && k <= j < |states| && LeftHoping(g, states[k], r)
    ensures LeftHoping(g, states[j], r)
    decreases j
  {
    if k < j {
      HopesForEver(g, states, moves, k, j - 1, r);
      MoveLeavesItHoping(g, states, moves, j - 1, r);
    }
  }

  // ------------------------------------------------------------------------------------
  // A run that gets there
  // ------------------------------------------------------------------------------------

  function AnySource(): Block {
    Block(1, false, 0, 100, false, (a: nat) => a, (n: nat, i: nat) => n, 1, 1, false)
  }

  /** It takes ten items at a time. */
  function TenfoldSink(): Block {
    Block(1, false, 0, 100, false, (a: nat) => a, (n: nat, i: nat) => 10 * n, 1, 10, false)
  }

  function TwoBlocks(): Graph {
    Graph([Node(AnySource(), 1, [], [[Port(1, 0)]]), Node(TenfoldSink(), 1, [Port(0, 0)], [])], [[100], []])
  }

  lemma TwoBlocksAreOk()
    ensures GraphOk(TwoBlocks())
  {
    var g := TwoBlocks();
    assert Readers(g, 0, 0) == [Port(1, 0)];
    forall w: nat, p: nat | IsOutput(g, w, p) ensures w == 0 && p == 0 {
    }
  }

  lemma TwoBlocksAreProvisioned()
    ensures Provisioned(TwoBlocks(), [0, 1])
  {
    var g := TwoBlocks();
    TwoBlocksAreOk();
    var rs := AsReaders(g, Readers(g, 0, 0));
    assert rs == [BufferSizing.Reader(1, 10, 1, 1)];
    forall w: nat, p: nat | IsOutput(g, w, p) ensures w == 0 && p == 0 {
    }
    assert SizedByFlowgraph(g);
    assert Monotone(AnySource()) && Monotone(TenfoldSink());
  }

  /** The source stands at `pc`; the sink has not begun an iteration. */
  function With(pc: Pc, told: bool, avail: nat, done: bool): Sys {
    Sys([Thread(pc, false, false, Align(0, false)), Thread(Top, told, false, Align(0, false))],
      Buffers([[], [avail]], [[done], []]))
  }

  lemma WithIsOk(pc: Pc, told: bool, avail: nat, done: bool)
    ensures SysOk(TwoBlocks(), With(pc, told, avail, done))
    ensures Space(TwoBlocks(), With(pc, told, avail, done).mem, 0, 0) == if avail < 100 then 99 - avail else 0
  {
    TwoBlocksAreOk();
    var g, m := TwoBlocks(), With(pc, told, avail, done).mem;
    assert Readers(g, 0, 0) == [Port(1, 0)] && [Port(1, 0)][1..] == [];
    assert MostData(g, m, [Port(1, 0)]) == avail;
  }

  /** The source is given work for fifty items. */
  lemma SourceIsGivenWork()
    ensures SysOk(TwoBlocks(), With(ReadingOutputs([], []), false, 0, false))
    ensures Step(TwoBlocks(), With(ReadingOutputs([], []), false, 0, false), 0, ReadOutput,
                 With(Working([], [50], {}, {}, 0), false, 0, false))
  {
    var g, s := TwoBlocks(), With(ReadingOutputs([], []), false, 0, false);
    WithIsOk(ReadingOutputs([], []), false, 0, false);
    var v := OutView(g, s.mem, 0, 0);
    assert v == OutputView(99, 100, false);
    assert CheckOutput(AnySource(), v) == BlockExecutor.Fits(50);
    assert [v][..0] == [] && MinSpace(AnySource(), [v]) == Room(50);
    assert [] + [v] == [v];
    assert Iterate(AnySource(), [], [v], Align(0, false)) == (CallWork(50, 0), Align(0, false));
    assert seq(1, k => 50) == [50] && seq(0, i => 0) == [];
    assert Started([], 1, CallWork(50, 0)) == Working([], [50], {}, {}, 0);
  }

  /** It produces five items, and ends. */
  lemma SourceProduces()
    ensures Step(TwoBlocks(), With(Working([], [50], {}, {}, 0), false, 0, false), 0, Produce(0, 5),
                 With(Working([], [45], {}, {0}, 0), false, 5, false))
    ensures Step(TwoBlocks(), With(Working([], [45], {}, {0}, 0), false, 5, false), 0, Return(true),
                 With(MarkingDone(0, {}, {0}), false, 5, false))
  {
    var g := TwoBlocks();
    var s := With(Working([], [50], {}, {}, 0), false, 0, false);
    WithIsOk(Working([], [50], {}, {}, 0), false, 0, false);
    WithIsOk(Working([], [45], {}, {0}, 0), false, 5, false);
    assert s.threads[0].pc.mayProduce[0 := 45] == [45] && s.threads[0].pc.filled + {0} == {0};
    assert ThreadScheduler.Fed(g, s.mem, 0, 0, 5, 0) == [];
    assert ThreadScheduler.Fed(g, s.mem, 0, 0, 5, 1) == [5];
    assert seq(|g.nodes|, r requires 0 <= r < |g.nodes| => ThreadScheduler.Fed(g, s.mem, 0, 0, 5, r)) == [[], [5]];
  }

  lemma SourceMarks()
    ensures Step(TwoBlocks(), With(MarkingDone(0, {}, {0}), false, 5, false), 0, MarkDone,
                 With(MarkingDone(1, {}, {0}), false, 5, true))
    ensures Step(TwoBlocks(), With(MarkingDone(1, {}, {0}), false, 5, true), 0, MarkDone,
                 With(Notifying([Down(1)], true), false, 5, true))
  {
    var g := TwoBlocks();
    WithIsOk(MarkingDone(0, {}, {0}), false, 5, false);
    WithIsOk(MarkingDone(1, {}, {0}), false, 5, true);
    assert [false][0 := true] == [true] && [[false], []][0 := [true]] == [[true], []];
    assert Marked(g, 0, 0) == Port(0, 0);
    assert g.nodes[0].readers == [[Port(1, 0)]] && g.nodes[0].readers[1..] == [];
    assert Neighbours(g, 0) == [Down(1)];
  }

  lemma SourceTells()
    ensures Step(TwoBlocks(), With(Notifying([Down(1)], true), false, 5, true), 0, Notify,
                 With(Notifying([], true), true, 5, true))
    ensures Step(TwoBlocks(), With(Notifying([], true), true, 5, true), 0, Notify, With(Dead, true, 5, true))
  {
    WithIsOk(Notifying([Down(1)], true), false, 5, true);
    WithIsOk(Notifying([], true), true, 5, true);
    assert [Down(1)][1..] == [];
  }

  lemma SourceBegins()
    ensures Step(TwoBlocks(), With(Top, false, 0, false), 0, Clear, With(ReadingInputs([]), false, 0, false))
    ensures Step(TwoBlocks(), With(ReadingInputs([]), false, 0, false), 0, ReadInput,
                 With(ReadingOutputs([], []), false, 0, false))
  {
    WithIsOk(Top, false, 0, false);
    WithIsOk(ReadingInputs([]), false, 0, false);
  }

  lemma StartIsInitial()
    ensures Init(TwoBlocks(), With(Top, false, 0, false))
  {
    var g, s := TwoBlocks(), With(Top, false, 0, false);
    WithIsOk(Top, false, 0, false);
    forall r: nat, i: nat | IsInput(g, r, i)
      ensures Avail(g, s.mem, r, i) < BufSize(g, Source(g, r, i).block, Source(g, r, i).port)
    {
      assert r == 1 && i == 0;
    }
    forall w: nat, p: nat | IsOutput(g, w, p) ensures !IsDone(g, s.mem, w, p) {
      assert w == 0 && p == 0;
    }
  }

  /** The source begins, is given work, and produces. */
  lemma RunToTheItems() returns (states: seq<Sys>, moves: seq<Move>)
    ensures IsRun(TwoBlocks(), states, moves)
    ensures states[|states| - 1] == With(MarkingDone(0, {}, {0}), false, 5, false)
  {
    var g := TwoBlocks();
    StartIsInitial();
    SourceBegins();
    SourceIsGivenWork();
    SourceProduces();
    states, moves := [With(Top, false, 0, false)], [];
    assert IsRun(g, states, moves);
    states, moves := OneMore(g, states, moves, Clear, With(ReadingInputs([]), false, 0, false));
    states, moves := OneMore(g, states, moves, ReadInput, With(ReadingOutputs([], []), false, 0, false));
    states, moves := OneMore(g, states, moves, ReadOutput, With(Working([], [50], {}, {}, 0), false, 0, false));
    states, moves := OneMore(g, states, moves, Produce(0, 5), With(Working([], [45], {}, {0}, 0), false, 5, false));
    states, moves := OneMore(g, states, moves, Return(true), With(MarkingDone(0, {}, {0}), false, 5, false));
  }

  /** The source takes one more step. */
  lemma OneMore(g: Graph, before: seq<Sys>, made: seq<Move>, a: Action, s: Sys)
    returns (states: seq<Sys>, moves: seq<Move>)
    requires IsRun(g, before, made) && Step(g, before[|before| - 1], 0, a, s)
    ensures IsRun(g, states, moves) && states[|states| - 1] == s
  {
    RunOneMore(g, before, made, Move(0, a), s);
    states, moves := before + [s], made + [Move(0, a)];
  }

  /** In a graph the flowgraph would build and size, a run after which the sink hopes for ever. */
  lemma SinkCanBeLeftHoping() returns (states: seq<Sys>, moves: seq<Move>)
    ensures Provisioned(TwoBlocks(), [0, 1]) && IsRun(TwoBlocks(), states, moves)
    ensures LeftHoping(TwoBlocks(), states[|states| - 1], 1)
  {
    var g := TwoBlocks();
    TwoBlocksAreProvisioned();
    states, moves := RunToTheItems();
    SourceMarks();
    SourceTells();
    states, moves := OneMore(g, states, moves, MarkDone, With(MarkingDone(1, {}, {0}), false, 5, true));
    states, moves := OneMore(g, states, moves, MarkDone, With(Notifying([Down(1)], true), false, 5, true));
    states, moves := OneMore(g, states, moves, Notify, With(Notifying([], true), true, 5, true));
    states, moves := OneMore(g, states, moves, Notify, With(Dead, true, 5, true));
    SinkHopes();
  }

  lemma SinkHopes()
    ensures LeftHoping(TwoBlocks(), With(Dead, true, 5, true), 1)
  {
    var g, s := TwoBlocks(), With(Dead, true, 5, true);
    WithIsOk(Dead, true, 5, true);
    var ins := InViews(g, s.mem, 1);
    assert ins == [InputView(5, true, 99)];
    MaxAvailIsMax(ins);
    assert MaxAvail(ins) == 5;
  }
}

/**
 The scheduler cannot hang. On an acyclic graph of blocks with at most one input, whose buffers
 the flowgraph sized, some block can always work, and not every thread can be asleep for good.
 */
module Progress {
  import opened Rounding
  import opened BlockExecutor
  import opened ThreadScheduler
  import BufferSizing

  /** Forecasts are never negative and never ask for less to make more. */
  ghost predicate Monotone(b: Block) {
    forall n: nat, m: nat, i: nat :: n <= m ==> 0 <= b.forecast(n, i) <= b.forecast(m, i)
  }

  /** At one output multiple the forecast asks at most decimation * multiple + history - 1. */
  ghost predicate Frugal(b: Block, history: nat) {
    history >= 1 &&
    b.forecast(b.outputMultiple, 0) * b.rateNum <= b.rateDen * b.outputMultiple + (history - 1) * b.rateNum
  }

  function AsReader(g: Graph, t: nat): BufferSizing.Reader
    requires t < |g.nodes|
  {
    var b := Exec(g, t);
    BufferSizing.Reader(b.rateNum, b.rateDen, b.outputMultiple, g.nodes[t].history)
  }

  function AsReaders(g: Graph, rs: seq<Port>): seq<BufferSizing.Reader>
    requires forall x :: x in rs ==> x.block < |g.nodes|
  {
    seq(|rs|, j requires 0 <= j < |rs| => AsReader(g, rs[j].block))
  }

  /** Buffers are as large as the flowgraph makes them when no maximum is set. */
  ghost predicate SizedByFlowgraph(g: Graph)
    requires GraphOk(g)
  {
    forall w: nat, p: nat :: IsOutput(g, w, p) ==>
      BufferSizing.EnoughFor(BufSize(g, w, p), Exec(g, w).outputMultiple, AsReaders(g, Readers(g, w, p)))
  }

  /** Positions in a topological order of the blocks. */
  ghost predicate Ordered(g: Graph, rank: seq<nat>)
    requires GraphOk(g)
  {
    && |rank| == |g.nodes|
    && (forall t :: 0 <= t < |g.nodes| ==> rank[t] < |g.nodes|)
    && (forall r: nat, i: nat :: IsInput(g, r, i) ==> rank[Source(g, r, i).block] < rank[r])
  }

  ghost predicate Provisioned(g: Graph, rank: seq<nat>) {
    && GraphOk(g) && SizedByFlowgraph(g) && Ordered(g, rank)
    && forall t :: 0 <= t < |g.nodes| ==>
         var b := Exec(g, t);
         && NumIn(g, t) <= 1
         && b.minNoutput <= b.outputMultiple <= b.maxNoutput
         && Monotone(b) && Frugal(b, g.nodes[t].history)
  }

  ghost function InViews(g: Graph, m: Buffers, t: nat): seq<InputView>
    requires GraphOk(g) && Shaped(g, m) && t < |g.nodes|
  {
    seq(NumIn(g, t), i requires 0 <= i < NumIn(g, t) => InView(g, m, t, i))
  }

  ghost function OutViews(g: Graph, m: Buffers, t: nat): (outs: seq<OutputView>)
    requires GraphOk(g) && Shaped(g, m) && t < |g.nodes|
    ensures ViewsOk(outs) && |outs| == NumOut(g, t)
  {
    seq(NumOut(g, t), o requires 0 <= o < NumOut(g, t) => OutView(g, m, t, o))
  }

  ghost predicate NothingDone(g: Graph, m: Buffers) {
    GraphOk(g) && Shaped(g, m) &&
    forall w: nat, p: nat :: IsOutput(g, w, p) ==> !IsDone(g, m, w, p)
  }

  /** An iteration on the present contents of the buffers calls the block's work. */
  ghost predicate CanWork(g: Graph, m: Buffers, t: nat, al: Align) {
    GraphOk(g) && Shaped(g, m) && t < |g.nodes| && AlignOk(Exec(g, t), al) &&
      Iterate(Exec(g, t), InViews(g, m, t), OutViews(g, m, t), al).0.CallWork?
  }

  // ------------------------------------------------------------------------------------
  // A fed block is not blocked on input
  // ------------------------------------------------------------------------------------

  lemma {:induction false} FedRequestIsMet(b: Block, ins: seq<InputView>, maxAvail: nat, al: Align, n: nat, maxN: nat,
                                           newAlignment: int)
    requires WellFormed(b) && AlignOk(b, al) && Monotone(b) && |ins| == 1
    requires n % b.outputMultiple == 0 && maxN % b.outputMultiple == 0
    requires b.forecast(b.outputMultiple, 0) <= ins[0].avail
    ensures TryAgain(b, ins, maxAvail, al, n, maxN, newAlignment).0.CallWork?
    decreases n
  {
    PassShrinks(b, maxAvail, al, n, maxN, newAlignment);
    var p := OnePass(b, maxAvail, al, n, maxN, newAlignment);
    assert p.n <= b.outputMultiple ==> b.forecast(p.n, 0) <= b.forecast(b.outputMultiple, 0);
    if CheckInputs(b, ins, p.n, 0).Short? && p.n > b.outputMultiple {
      HalvingDecreases(b, p.n);
      FedRequestIsMet(b, ins, maxAvail, p.al, RoundUp(p.n / 2, b.outputMultiple), p.maxN, p.newAlignment);
    }
  }

  /** Half a buffer sized for the reader covers its forecast and gives a sink something to do. */
  lemma HalfIsEnough(f: int, m: nat, num: nat, den: nat, h: nat, avail: nat)
    requires num >= 1 && h >= 1 && f * num <= den * m + (h - 1) * num
    requires 2 * avail >= 2 * (den * m + h * num) / num
    ensures f <= avail
    ensures avail * num >= den * m
  {
    var d := den * m + h * num;
    assert (2 * d) / num * num > 2 * d - num by {
      assert 2 * d == (2 * d / num) * num + (2 * d) % num;
    }
    var k := 2 * d / num;
    MulMonotone(k, 2 * avail, num);
    assert (2 * avail) * num == 2 * (avail * num);
    assert h * num >= num by { ProductAtLeast(h, num); }
    assert (h - 1) * num == h * num - num by { Distribute(h, 1, num); }
    assert f * num <= d - num;
    assert 2 * (avail * num) > 2 * d - num;
    Distribute(avail, 1, num);
    if f > avail {
      MulMonotone(avail + 1, f, num);
    }
  }

  lemma MulMonotone(a: int, b: int, c: nat)
    requires a <= b
    ensures a * c <= b * c
  {
    Distribute(b, a, c);
    assert (b - a) * c >= 0;
  }

  lemma SinkHasRequest(b: Block, ins: seq<InputView>)
    requires WellFormed(b) && |ins| == 1 && b.outputMultiple <= b.maxNoutput
    requires ins[0].avail * b.rateNum >= b.rateDen * b.outputMultiple
    ensures SinkRequest(b, ins) > 0
  {
    MaxAvailIsMax(ins);
    var a, q := b.outputMultiple, MaxAvail(ins) * b.rateNum / b.rateDen;
    assert MaxAvail(ins) == ins[0].avail;
    assert MaxAvail(ins) * b.rateNum == q * b.rateDen + (MaxAvail(ins) * b.rateNum) % b.rateDen;
    Distribute(q, 1, b.rateDen);
    if q < a {
      MulMonotone(q + 1, a, b.rateDen);
      assert false;
    }
    MultipleDivides(1, a);
    RoundDownGreatest(q, a, a);
    RoundDownGreatest(b.maxNoutput, a, a);
  }

  ghost predicate Fed(g: Graph, m: Buffers, t: nat)
    requires GraphOk(g) && Shaped(g, m) && t < |g.nodes|
  {
    NumIn(g, t) == 1 && IsInput(g, t, 0) &&
    2 * Avail(g, m, t, 0) >= BufSize(g, Source(g, t, 0).block, Source(g, t, 0).port)
  }

  lemma FedMeetsForecast(g: Graph, m: Buffers, rank: seq<nat>, t: nat)
    requires Provisioned(g, rank) && Shaped(g, m) && t < |g.nodes| && Fed(g, m, t)
    ensures var b := Exec(g, t);
      && b.forecast(b.outputMultiple, 0) <= Avail(g, m, t, 0)
      && Avail(g, m, t, 0) * b.rateNum >= b.rateDen * b.outputMultiple
  {
    HalfMeetsForecast(g, rank, t, Avail(g, m, t, 0));
  }

  /** The buffer on a block's input was sized for it among its readers. */
  lemma ReaderIsServed(g: Graph, t: nat)
    requires GraphOk(g) && SizedByFlowgraph(g) && IsInput(g, t, 0)
    ensures BufferSizing.ReaderNeed(AsReader(g, t)) <= BufSize(g, Source(g, t, 0).block, Source(g, t, 0).port)
  {
    var s := Source(g, t, 0);
    var rs := Readers(g, s.block, s.port);
    var j :| 0 <= j < |rs| && rs[j] == Port(t, 0);
    assert AsReaders(g, rs)[j] == AsReader(g, t);
  }

  /** Half of the buffer on a block's input meets its forecast. */
  lemma HalfMeetsForecast(g: Graph, rank: seq<nat>, t: nat, avail: nat)
    requires Provisioned(g, rank) && t < |g.nodes| && IsInput(g, t, 0)
    requires 2 * avail >= BufSize(g, Source(g, t, 0).block, Source(g, t, 0).port)
    ensures var b := Exec(g, t);
      b.forecast(b.outputMultiple, 0) <= avail && avail * b.rateNum >= b.rateDen * b.outputMultiple
  {
    var b := Exec(g, t);
    ReaderIsServed(g, t);
    HalfIsEnough(b.forecast(b.outputMultiple, 0), b.outputMultiple, b.rateNum, b.rateDen, g.nodes[t].history, avail);
  }

  /** The present views of a block are all full or fit: nothing done, nothing too small. */
  lemma OutputsFitOrFull(g: Graph, m: Buffers, rank: seq<nat>, t: nat, p: nat)
    requires Provisioned(g, rank) && Shaped(g, m) && NothingDone(g, m) && IsOutput(g, t, p)
    ensures var c := CheckOutput(Exec(g, t), OutView(g, m, t, p)); c.Fits? || c.Full?
  {
    var b := Exec(g, t);
    MultipleDivides(1, b.outputMultiple);
    assert BufSize(g, t, p) >= 2 * b.outputMultiple;
    RoundDownGreatest(BufSize(g, t, p) / 2, b.outputMultiple, b.outputMultiple);
  }

  lemma FullHasLittleSpace(g: Graph, m: Buffers, rank: seq<nat>, w: nat, p: nat)
    requires Provisioned(g, rank) && BuffersOk(g, m) && StillFull(g, m, w, p)
    ensures BufSize(g, w, p) >= 2 * Exec(g, w).outputMultiple && Space(g, m, w, p) < Exec(g, w).outputMultiple
  {
    var a := Exec(g, w).outputMultiple;
    MultipleDivides(1, a);
    assert BufSize(g, w, p) >= 2 * a;
    RoundDownGreatest(BufSize(g, w, p) / 2, a, a);
    if Space(g, m, w, p) >= a {
      RoundDownGreatest(Space(g, m, w, p), a, a);
      assert false;
    }
  }

  /** A full output leaves one of its readers at least half a buffer to read. */
  lemma FullOutputFeeds(g: Graph, m: Buffers, rank: seq<nat>, w: nat, p: nat) returns (r: nat)
    requires Provisioned(g, rank) && BuffersOk(g, m) && StillFull(g, m, w, p)
    ensures r < |g.nodes| && Fed(g, m, r) && rank[w] < rank[r] && Source(g, r, 0) == Port(w, p)
  {
    var rs := Readers(g, w, p);
    FullHasLittleSpace(g, m, rank, w, p);
    MostDataBounds(g, m, rs);
    var x :| x in rs && Avail(g, m, x.block, x.port) == MostData(g, m, rs);
    r := x.block;
    assert IsInput(g, r, x.port) && NumIn(g, r) <= 1;
    FedByFull(g, m, rank, w, p, x);
  }

  /** A reader of a nearly full output has at least half the buffer to read, and is further down. */
  lemma FedByFull(g: Graph, m: Buffers, rank: seq<nat>, w: nat, p: nat, x: Port)
    requires Provisioned(g, rank) && BuffersOk(g, m) && IsOutput(g, w, p) && x in Readers(g, w, p)
    requires IsInput(g, x.block, 0) && x.port == 0 && Avail(g, m, x.block, 0) == MostData(g, m, Readers(g, w, p))
    requires BufSize(g, w, p) >= 2 * Exec(g, w).outputMultiple && Space(g, m, w, p) < Exec(g, w).outputMultiple
    ensures Fed(g, m, x.block) && rank[w] < rank[x.block] && Source(g, x.block, 0) == Port(w, p)
  {
    assert Source(g, x.block, 0) == Port(w, p);
    FullHoldsHalf(g, m, w, p);
  }

  /** Too little space for one multiple leaves the slowest reader half a buffer at least. */
  lemma FullHoldsHalf(g: Graph, m: Buffers, w: nat, p: nat)
    requires GraphOk(g) && Shaped(g, m) && IsOutput(g, w, p)
    requires BufSize(g, w, p) >= 2 * Exec(g, w).outputMultiple && Space(g, m, w, p) < Exec(g, w).outputMultiple
    ensures 2 * MostData(g, m, Readers(g, w, p)) >= BufSize(g, w, p)
  {
  }

  /** A block that is not short of input works now, or one of its outputs is full. */
  lemma FedWorksOrIsFull(g: Graph, m: Buffers, rank: seq<nat>, t: nat, al: Align) returns (full: bool, p: nat)
    requires Provisioned(g, rank) && Shaped(g, m) && NothingDone(g, m) && t < |g.nodes|
    requires NumIn(g, t) == 0 || Fed(g, m, t)
    requires AlignOk(Exec(g, t), al)
    ensures full ==> StillFull(g, m, t, p)
    ensures !full ==> CanWork(g, m, t, al)
  {
    var b, ins, outs := Exec(g, t), InViews(g, m, t), OutViews(g, m, t);
    full, p := false, 0;
    if !MinSpace(b, outs).Room? {
      FirstBlockedDecides(b, outs);
      p := MinSpace(b, outs).at;
      OutputsFitOrFull(g, m, rank, t, p);
      full := true;
    } else {
      FedWorks(g, m, rank, t, al);
    }
  }

  lemma FedWorks(g: Graph, m: Buffers, rank: seq<nat>, t: nat, al: Align)
    requires Provisioned(g, rank) && Shaped(g, m) && NothingDone(g, m) && t < |g.nodes|
    requires NumIn(g, t) == 0 || Fed(g, m, t)
    requires AlignOk(Exec(g, t), al) && MinSpace(Exec(g, t), OutViews(g, m, t)).Room?
    ensures CanWork(g, m, t, al)
  {
    var b, ins, outs := Exec(g, t), InViews(g, m, t), OutViews(g, m, t);
    MultipleDivides(1, b.outputMultiple);
    RoundDownGreatest(b.maxNoutput, b.outputMultiple, b.outputMultiple);
    if outs != [] {
      RoomIsWhole(b, outs);
    }
    if NumIn(g, t) == 1 {
      FedMeetsForecast(g, m, rank, t);
      assert ins[0] == InView(g, m, t, 0);
      if outs == [] {
        SinkHasRequest(b, ins);
        assert !ins[0].done;
        FedRequestIsMet(b, ins, MaxAvail(ins), al, SinkRequest(b, ins), WholeMax(b), 0);
      } else {
        FedRequestIsMet(b, ins, MaxAvail(ins), al, MinSpace(b, outs).n, WholeMax(b), 0);
      }
    } else {
      assert ins == [];
    }
  }

  // ------------------------------------------------------------------------------------
  // Following full outputs downstream ends at a block that can work
  // ------------------------------------------------------------------------------------

  ghost function AlOf(s: Sys, t: nat): Align
    requires t < |s.threads|
  {
    s.threads[t].al
  }

  ghost predicate AlignsOk(g: Graph, s: Sys)
    requires SysOk(g, s)
  {
    forall t :: 0 <= t < |g.nodes| ==> AlignOk(Exec(g, t), AlOf(s, t))
  }

  lemma {:induction false} DownstreamCanWork(g: Graph, s: Sys, rank: seq<nat>, t: nat) returns (r: nat)
    requires Provisioned(g, rank) && SysOk(g, s) && BuffersOk(g, s.mem) && NothingDone(g, s.mem)
    requires AlignsOk(g, s) && t < |g.nodes| && (NumIn(g, t) == 0 || Fed(g, s.mem, t))
    ensures r < |g.nodes| && CanWork(g, s.mem, r, AlOf(s, r))
    decreases |g.nodes| - rank[t]
  {
    var full, p := FedWorksOrIsFull(g, s.mem, rank, t, AlOf(s, t));
    if full {
      var next := FullOutputFeeds(g, s.mem, rank, t, p);
      r := DownstreamCanWork(g, s, rank, next);
    } else {
      r := t;
    }
  }

  lemma {:induction false} UpstreamSource(g: Graph, rank: seq<nat>, t: nat) returns (r: nat)
    requires Provisioned(g, rank) && t < |g.nodes|
    ensures r < |g.nodes| && NumIn(g, r) == 0
    decreases rank[t]
  {
    if NumIn(g, t) == 0 {
      r := t;
    } else {
      assert IsInput(g, t, 0);
      r := UpstreamSource(g, rank, Source(g, t, 0).block);
    }
  }

  /** Some block's work can be called on the present contents of the buffers. */
  lemma SomeBlockCanWork(g: Graph, s: Sys, rank: seq<nat>) returns (r: nat)
    requires Provisioned(g, rank) && Inv(g, s) && NothingDone(g, s.mem) && |g.nodes| > 0
    ensures r < |g.nodes| && CanWork(g, s.mem, r, AlOf(s, r))
  {
    assert forall t :: 0 <= t < |g.nodes| ==> PcOk(g, s.mem, t, s.threads[t]);
    var source := UpstreamSource(g, rank, 0);
    r := DownstreamCanWork(g, s, rank, source);
  }

  /** Waiting, for input or with the output flag down. */
  predicate Waiting(th: Thread) {
    th.pc.WaitIn? || Sleeping(th)
  }

  lemma FullCannotWork(g: Graph, m: Buffers, t: nat, p: nat, al: Align)
    requires GraphOk(g) && Shaped(g, m) && StillFull(g, m, t, p)
    ensures !CanWork(g, m, t, al)
  {
    if AlignOk(Exec(g, t), al) {
      RoomFitsOnly(g, m, t, p);
    }
  }

  lemma RoomFitsOnly(g: Graph, m: Buffers, t: nat, p: nat)
    requires GraphOk(g) && Shaped(g, m) && StillFull(g, m, t, p)
    ensures !MinSpace(Exec(g, t), OutViews(g, m, t)).Room? && OutViews(g, m, t) != []
  {
    var b, outs := Exec(g, t), OutViews(g, m, t);
    assert outs[p] == OutView(g, m, t, p);
    if MinSpace(b, outs).Room? {
      RoomFits(b, outs);
    }
  }

  /** A thread ends only after the buffers around its block were marked done. */
  lemma EndedOnlyIfDone(g: Graph, s: Sys, t: nat)
    requires Inv(g, s) && t < |g.nodes|
    ensures s.threads[t].pc.Dead? ==> !NothingDone(g, s.mem)
  {
    assert PcOk(g, s.mem, t, s.threads[t]);
    if s.threads[t].pc.Dead? {
      assert NumOut(g, t) + NumIn(g, t) > 0;
      var b := Marked(g, t, 0);
      assert IsDone(g, s.mem, b.block, b.port);
    }
  }

  lemma NeverCrashes(g: Graph, s: Sys, rank: seq<nat>, t: nat)
    requires Provisioned(g, rank) && Inv(g, s) && t < |g.nodes|
    ensures !s.threads[t].pc.Crashed? && !s.threads[t].pc.WaitIdle?
  {
    assert PcOk(g, s.mem, t, s.threads[t]);
    if s.threads[t].pc.Crashed? {
      var o :| 0 <= o < NumOut(g, t) && OutTooSmall(g, t, o);
      var a := Exec(g, t).outputMultiple;
      assert BufSize(g, t, o) >= 2 * a;
      MultipleDivides(1, a);
      RoundDownGreatest(BufSize(g, t, o) / 2, a, a);
      assert false;
    }
  }

  lemma NobodyOwes(g: Graph, s: Sys, w: nat, p: nat)
    requires SysOk(g, s) && forall t :: 0 <= t < |g.nodes| ==> Waiting(s.threads[t])
    ensures !SomeoneOwes(g, s, w, p)
  {
  }

  /**
   If every thread waits, one of them waits for input, so its wait times out, and the iteration
   it then runs on the present contents calls its work.
   */
  lemma AllWaitingOneWorks(g: Graph, s: Sys, rank: seq<nat>) returns (r: nat)
    requires Provisioned(g, rank) && Inv(g, s) && NothingDone(g, s.mem) && |g.nodes| > 0
    requires forall t :: 0 <= t < |g.nodes| ==> Waiting(s.threads[t])
    ensures r < |g.nodes| && s.threads[r].pc.WaitIn? && CanWork(g, s.mem, r, AlOf(s, r))
  {
    r := SomeBlockCanWork(g, s, rank);
    NeverCrashes(g, s, rank, r);
    assert Waiting(s.threads[r]) && Warranted(g, s, r);
    if s.threads[r].pc.WaitOut? {
      var p := s.threads[r].pc.at;
      NobodyOwes(g, s, r, p);
      FullCannotWork(g, s.mem, r, p, AlOf(s, r));
      assert false;
    }
  }

  /**
   The scheduler never hangs: in every state of every run in which nothing is done, some thread
   is running, or has been told to wake up, or will wake up by itself and call its work.
   */
  lemma NeverHangs(g: Graph, states: seq<Sys>, moves: seq<Move>, k: nat, rank: seq<nat>) returns (t: nat)
    requires Provisioned(g, rank) && |g.nodes| > 0
    requires IsRun(g, states, moves) && k < |states| && NothingDone(g, states[k].mem)
    ensures t < |g.nodes| == |states[k].threads|
    ensures var th := states[k].threads[t];
      && !th.pc.Dead? && !th.pc.Crashed?
      && (!Waiting(th) || (th.pc.WaitIn? && CanWork(g, states[k].mem, t, AlOf(states[k], t))))
  {
    RunKeepsInv(g, states, moves, k);
    if t' :| 0 <= t' < |g.nodes| && !Waiting(states[k].threads[t']) {
      t := t';
      EndedOnlyIfDone(g, states[k], t);
      NeverCrashes(g, states[k], rank, t);
    } else {
      t := AllWaitingOneWorks(g, states[k], rank);
    }
  }
}

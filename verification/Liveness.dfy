/**
 A block that is ready has its work called in its very next iteration, whatever the other threads do
 meanwhile, as long as nothing is marked done.
 */
module Liveness {
  import opened Rounding
  import opened BlockExecutor
  import opened ThreadScheduler
  import Progress

  // ------------------------------------------------------------------------------------
  // Readiness
  // ------------------------------------------------------------------------------------

  /** A source, or a block with half a buffer to read, with room on every output. */
  ghost predicate Ready(g: Graph, m: Buffers, t: nat) {
    && GraphOk(g) && Shaped(g, m) && t < |g.nodes|
    && (NumIn(g, t) == 0 || Progress.Fed(g, m, t))
    && forall p: nat :: IsOutput(g, t, p) ==> CheckOutput(Exec(g, t), OutView(g, m, t, p)).Fits?
  }

  lemma MoreSpaceStillFits(b: Block, v: OutputView, w: OutputView)
    requires WellFormed(b) && CheckOutput(b, v).Fits? && v.bufsize == w.bufsize && v.space <= w.space
    ensures CheckOutput(b, w).Fits?
  {
    RoundDownGreatest(w.space, b.outputMultiple, RoundDown(v.space, b.outputMultiple));
  }

  /** What grows for a block leaves it ready. */
  lemma ReadyStays(g: Graph, m: Buffers, m': Buffers, t: nat)
    requires Ready(g, m, t) && Shaped(g, m') && GrowsFor(g, m, m', t)
    ensures Ready(g, m', t)
  {
    forall p: nat | IsOutput(g, t, p) ensures CheckOutput(Exec(g, t), OutView(g, m', t, p)).Fits? {
      MoreSpaceStillFits(Exec(g, t), OutView(g, m, t, p), OutView(g, m', t, p));
    }
  }

  /** Some block is ready: follow full outputs downstream, or else it is the block itself. */
  lemma {:induction false} DownstreamReady(g: Graph, m: Buffers, rank: seq<nat>, t: nat) returns (r: nat)
    requires Progress.Provisioned(g, rank) && BuffersOk(g, m) && Progress.NothingDone(g, m)
    requires t < |g.nodes| && (NumIn(g, t) == 0 || Progress.Fed(g, m, t))
    ensures Ready(g, m, r)
    decreases |g.nodes| - rank[t]
  {
    if p: nat :| IsOutput(g, t, p) && !CheckOutput(Exec(g, t), OutView(g, m, t, p)).Fits? {
      Progress.OutputsFitOrFull(g, m, rank, t, p);
      var next := Progress.FullOutputFeeds(g, m, rank, t, p);
      r := DownstreamReady(g, m, rank, next);
    } else {
      r := t;
    }
  }

  /** In every state the invariant allows, with nothing done, some block is ready. */
  lemma SomeBlockReady(g: Graph, s: Sys, rank: seq<nat>) returns (r: nat)
    requires Progress.Provisioned(g, rank) && Inv(g, s) && Progress.NothingDone(g, s.mem) && |g.nodes| > 0
    ensures Ready(g, s.mem, r)
  {
    var source := Progress.UpstreamSource(g, rank, 0);
    r := DownstreamReady(g, s.mem, rank, source);
  }

  // ------------------------------------------------------------------------------------
  // Snapshots
  // ------------------------------------------------------------------------------------

  /** The inputs seen so far were not done and held half a buffer. */
  ghost predicate SeenFed(g: Graph, t: nat, ins: seq<InputView>)
    requires GraphOk(g) && t < |g.nodes|
  {
    |ins| <= NumIn(g, t) && forall i: nat :: i < |ins| ==> SeenOneFed(g, t, i, ins[i])
  }

  ghost predicate SeenOneFed(g: Graph, t: nat, i: nat, v: InputView)
    requires GraphOk(g) && t < |g.nodes| && i < NumIn(g, t)
  {
    assert IsInput(g, t, i);
    !v.done && 2 * v.avail >= BufSize(g, Source(g, t, i).block, Source(g, t, i).port)
  }

  lemma SeesFed(g: Graph, m: Buffers, rank: seq<nat>, t: nat, ins: seq<InputView>)
    requires Progress.Provisioned(g, rank) && Ready(g, m, t) && Progress.NothingDone(g, m)
    requires SeenFed(g, t, ins) && |ins| < NumIn(g, t)
    ensures SeenFed(g, t, ins + [InView(g, m, t, |ins|)])
  {
    var src := Source(g, t, |ins|);
    assert IsOutput(g, src.block, src.port) && !IsDone(g, m, src.block, src.port);
    assert SeenOneFed(g, t, |ins|, InView(g, m, t, |ins|));
  }

  /** An iteration on such snapshots calls work. */
  lemma SeenFedWorks(g: Graph, rank: seq<nat>, t: nat, ins: seq<InputView>, outs: seq<OutputView>, al: Align)
    requires Progress.Provisioned(g, rank) && t < |g.nodes| && AlignOk(Exec(g, t), al)
    requires |ins| == NumIn(g, t) && |outs| == NumOut(g, t) && SeenFed(g, t, ins) && ViewsOk(outs)
    requires forall o :: 0 <= o < |outs| ==> CheckOutput(Exec(g, t), outs[o]).Fits?
    ensures Iterate(Exec(g, t), ins, outs, al).0.CallWork?
  {
    var b := Exec(g, t);
    FitsIsRoom(b, outs);
    WholeMaxPositive(b);
    if NumIn(g, t) == 1 {
      assert SeenOneFed(g, t, 0, ins[0]);
      Progress.HalfMeetsForecast(g, rank, t, ins[0].avail);
      if outs == [] {
        Progress.SinkHasRequest(b, ins);
        Progress.FedRequestIsMet(b, ins, MaxAvail(ins), al, SinkRequest(b, ins), WholeMax(b), 0);
      } else {
        Progress.FedRequestIsMet(b, ins, MaxAvail(ins), al, MinSpace(b, outs).n, WholeMax(b), 0);
      }
    }
  }

  // ------------------------------------------------------------------------------------
  // On course
  // ------------------------------------------------------------------------------------

  /** What the thread's iteration has seen, if one is under way, makes it call work. */
  ghost predicate SeenEnough(g: Graph, t: nat, pc: Pc)
    requires GraphOk(g) && t < |g.nodes|
  {
    match pc
    case WaitIn(_) => true
    case Top => true
    case ReadingInputs(ins) => SeenFed(g, t, ins)
    case ReadingOutputs(ins, outs) => |ins| == NumIn(g, t) && SeenFed(g, t, ins) && |outs| < NumOut(g, t)
    case _ => false
  }

  ghost predicate OnCourse(g: Graph, s: Sys, t: nat) {
    SysOk(g, s) && Ready(g, s.mem, t) && SeenEnough(g, t, s.threads[t].pc)
  }

  /** Steps of the thread itself until its work is called. */
  function StepsLeft(g: Graph, t: nat, pc: Pc): int
    requires t < |g.nodes|
  {
    match pc
    case WaitIn(_) => NumIn(g, t) + NumOut(g, t) + 4
    case Top => NumIn(g, t) + NumOut(g, t) + 3
    case ReadingInputs(ins) => NumIn(g, t) - |ins| + NumOut(g, t) + 2
    case ReadingOutputs(_, outs) => NumOut(g, t) - |outs| + 1
    case _ => 0
  }

  lemma ConsumeGrows(g: Graph, s: Sys, u: nat, i: nat, n: nat, s': Sys, t: nat)
    requires SysOk(g, s) && u < |g.nodes| && ConsumeStep(g, s, u, i, n, s') && t < |g.nodes| && u != t
    ensures SysOk(g, s') && GrowsFor(g, s.mem, s'.mem, t)
  {
    ConsumedAvail(g, s, u, i, n, s');
    ConsumeEffect(g, s, u, i, n, s');
  }

  lemma ProduceGrows(g: Graph, s: Sys, u: nat, o: nat, n: nat, s': Sys, t: nat)
    requires SysOk(g, s) && PcsOk(g, s) && u < |g.nodes| && ProduceStep(g, s, u, o, n, s') && t < |g.nodes| && u != t
    ensures SysOk(g, s') && GrowsFor(g, s.mem, s'.mem, t)
  {
    assert PcOk(g, s.mem, u, s.threads[u]);
    ProducedAvail(g, s, u, o, n, s');
    ProduceEffect(g, s, u, o, n, s');
  }

  lemma MarkGrows(g: Graph, s: Sys, u: nat, s': Sys, t: nat)
    requires SysOk(g, s) && u < |g.nodes| && MarkDoneStep(g, s, u, s') && t < |g.nodes|
    ensures SysOk(g, s') && GrowsFor(g, s.mem, s'.mem, t)
  {
    if s.threads[u].pc.k < NumOut(g, u) + NumIn(g, u) {
      MarkEffect(g, s, u, s');
    }
  }

  lemma StepGrows(g: Graph, s: Sys, u: nat, a: Action, s': Sys, t: nat)
    requires Inv(g, s) && Step(g, s, u, a, s') && t < |g.nodes| && (u != t || !(a.Consume? || a.Produce?))
    ensures SysOk(g, s') && GrowsFor(g, s.mem, s'.mem, t)
  {
    match a {
      case Consume(i, n) => ConsumeGrows(g, s, u, i, n, s', t);
      case Produce(o, n) => ProduceGrows(g, s, u, o, n, s', t);
      case MarkDone => MarkGrows(g, s, u, s', t);
      case _ =>
        StepKeepsPcs(g, s, u, a, s');
        assert s'.mem == s.mem;
    }
  }

  /** A step of another thread, or a message, leaves a thread on course. */
  lemma OtherStepKeepsCourse(g: Graph, s: Sys, u: nat, a: Action, s': Sys, t: nat)
    requires Inv(g, s) && Step(g, s, u, a, s') && OnCourse(g, s, t) && (u != t || a.Message?)
    ensures OnCourse(g, s', t) && s'.threads[t].pc == s.threads[t].pc
  {
    StepGrows(g, s, u, a, s', t);
    OthersStay(g, s, u, a, s', t);
    ReadyStays(g, s.mem, s'.mem, t);
  }

  lemma OthersStay(g: Graph, s: Sys, u: nat, a: Action, s': Sys, t: nat)
    requires SysOk(g, s) && Step(g, s, u, a, s') && SysOk(g, s') && t < |g.nodes| && (u != t || a.Message?)
    ensures s'.threads[t].pc == s.threads[t].pc && s'.threads[t].al == s.threads[t].al
  {
  }

  lemma OthersStayEnded(g: Graph, s: Sys, u: nat, a: Action, s': Sys, t: nat)
    requires SysOk(g, s) && Step(g, s, u, a, s') && SysOk(g, s') && t < |g.nodes| && s.threads[t].pc.Dead?
    ensures s'.threads[t].pc.Dead?
  {
    if u != t {
      OthersStay(g, s, u, a, s', t);
    }
  }

  /** Reading the inputs keeps a thread on course, and decides for work if there are no outputs. */
  lemma ReadInputKeepsCourse(g: Graph, s: Sys, rank: seq<nat>, t: nat, s': Sys)
    requires Progress.Provisioned(g, rank) && Inv(g, s) && Progress.NothingDone(g, s.mem) && OnCourse(g, s, t)
    requires ReadInputStep(g, s, t, s')
    ensures SysOk(g, s') && s'.mem == s.mem
    ensures s'.threads[t].pc.Working? ||
            (SeenEnough(g, t, s'.threads[t].pc) && StepsLeft(g, t, s'.threads[t].pc) < StepsLeft(g, t, s.threads[t].pc))
  {
    var ins := s.threads[t].pc.ins;
    if |ins| < NumIn(g, t) {
      SeesFed(g, s.mem, rank, t, ins);
    } else if NumOut(g, t) == 0 {
      assert PcOk(g, s.mem, t, s.threads[t]);
      SeenFedWorks(g, rank, t, ins, [], s.threads[t].al);
    }
  }

  /** Reading the outputs finds room on each, and decides for work at the last. */
  lemma ReadOutputKeepsCourse(g: Graph, s: Sys, rank: seq<nat>, t: nat, s': Sys)
    requires Progress.Provisioned(g, rank) && Inv(g, s) && OnCourse(g, s, t) && ReadOutputStep(g, s, t, s')
    ensures SysOk(g, s') && s'.mem == s.mem
    ensures s'.threads[t].pc.Working? ||
            (SeenEnough(g, t, s'.threads[t].pc) && StepsLeft(g, t, s'.threads[t].pc) < StepsLeft(g, t, s.threads[t].pc))
  {
    var ins, outs := s.threads[t].pc.ins, s.threads[t].pc.outs;
    var v := OutView(g, s.mem, t, |outs|);
    assert IsOutput(g, t, |outs|) && CheckOutput(Exec(g, t), v).Fits?;
    assert PcOk(g, s.mem, t, s.threads[t]);
    if |outs| + 1 == NumOut(g, t) {
      SeenFedWorks(g, rank, t, ins, outs + [v], s.threads[t].al);
    }
  }

  /** A step of the thread itself brings it closer to work. */
  lemma OwnStepKeepsCourse(g: Graph, s: Sys, rank: seq<nat>, t: nat, a: Action, s': Sys)
    requires Progress.Provisioned(g, rank) && Inv(g, s) && Progress.NothingDone(g, s.mem) && OnCourse(g, s, t)
    requires Step(g, s, t, a, s') && !a.Message?
    ensures SysOk(g, s')
    ensures s'.threads[t].pc.Working? ||
            (OnCourse(g, s', t) && StepsLeft(g, t, s'.threads[t].pc) < StepsLeft(g, t, s.threads[t].pc))
  {
    match a {
      case ReadInput => ReadInputKeepsCourse(g, s, rank, t, s');
      case ReadOutput => ReadOutputKeepsCourse(g, s, rank, t, s');
      case _ =>
    }
  }

  // ------------------------------------------------------------------------------------
  // Runs
  // ------------------------------------------------------------------------------------

  /** Whether the move is a step that thread t itself takes. */
  function OwnStep(mv: Move, t: nat): nat {
    if mv.thread == t && !mv.action.Message? then 1 else 0
  }

  /** Steps that thread t itself takes among the moves from k to j. */
  function OwnSteps(moves: seq<Move>, k: nat, j: nat, t: nat): nat
    requires k <= j <= |moves|
    decreases j
  {
    if k == j then 0
    else OwnSteps(moves, k, j - 1, t) + OwnStep(moves[j - 1], t)
  }

  /** One move: the thread's own brings it closer to work, any other leaves it where it is. */
  lemma MoveKeepsCourse(g: Graph, s: Sys, rank: seq<nat>, mv: Move, s': Sys, t: nat)
    requires Progress.Provisioned(g, rank) && Inv(g, s) && Progress.NothingDone(g, s.mem) && OnCourse(g, s, t)
    requires Step(g, s, mv.thread, mv.action, s')
    ensures t < |s'.threads|
    ensures s'.threads[t].pc.Working? ||
            (OnCourse(g, s', t) &&
             StepsLeft(g, t, s'.threads[t].pc) + OwnStep(mv, t) <= StepsLeft(g, t, s.threads[t].pc))
  {
    if OwnStep(mv, t) == 1 {
      OwnStepKeepsCourse(g, s, rank, t, mv.action, s');
    } else {
      OtherStepKeepsCourse(g, s, mv.thread, mv.action, s', t);
    }
  }

  /** Thread t calls work in some state after the k-th, up to the j-th. */
  ghost predicate Worked(states: seq<Sys>, k: nat, j: nat, t: nat)
    requires j < |states|
  {
    exists i :: k < i <= j && t < |states[i].threads| && states[i].threads[t].pc.Working?
  }

  /** Thread t is on course in the j-th state, and as many steps closer to work as it has taken since the k-th. */
  ghost predicate Closer(g: Graph, states: seq<Sys>, moves: seq<Move>, k: nat, j: nat, t: nat)
    requires k <= j < |states| && j <= |moves|
  {
    && t < |g.nodes| && t < |states[k].threads| && OnCourse(g, states[j], t)
    && StepsLeft(g, t, states[j].threads[t].pc) + OwnSteps(moves, k, j, t) <= StepsLeft(g, t, states[k].threads[t].pc)
  }

  /** Nothing is done in the states from the k-th to the j-th. */
  ghost predicate Quiet(g: Graph, states: seq<Sys>, k: nat, j: nat)
    requires k <= j < |states|
  {
    forall i :: k <= i <= j ==> Progress.NothingDone(g, states[i].mem)
  }

  lemma CloserAtFirst(g: Graph, states: seq<Sys>, moves: seq<Move>, k: nat, t: nat)
    requires k < |states| && k <= |moves| && OnCourse(g, states[k], t)
    ensures Closer(g, states, moves, k, k, t)
  {
  }

  lemma RunStep(g: Graph, states: seq<Sys>, moves: seq<Move>, k: nat)
    requires IsRun(g, states, moves) && k < |moves|
    ensures Inv(g, states[k]) && Step(g, states[k], moves[k].thread, moves[k].action, states[k + 1])
  {
    RunKeepsInv(g, states, moves, k);
  }

  lemma StaysOnCourse(g: Graph, states: seq<Sys>, moves: seq<Move>, rank: seq<nat>, k: nat, j: nat, t: nat)
    requires Progress.Provisioned(g, rank) && |states| == |moves| + 1 && k < j < |states|
    requires Inv(g, states[j - 1]) && Progress.NothingDone(g, states[j - 1].mem)
    requires Step(g, states[j - 1], moves[j - 1].thread, moves[j - 1].action, states[j])
    requires Worked(states, k, j - 1, t) || Closer(g, states, moves, k, j - 1, t)
    ensures Worked(states, k, j, t) || Closer(g, states, moves, k, j, t)
  {
    if !Worked(states, k, j - 1, t) {
      MoveKeepsCourse(g, states[j - 1], rank, moves[j - 1], states[j], t);
    }
  }

  /** One move further along a run. */
  lemma RunStaysOnCourse(g: Graph, states: seq<Sys>, moves: seq<Move>, rank: seq<nat>, k: nat, j: nat, t: nat)
    requires Progress.Provisioned(g, rank) && IsRun(g, states, moves) && k < j < |states|
    requires Progress.NothingDone(g, states[j - 1].mem)
    requires Worked(states, k, j - 1, t) || Closer(g, states, moves, k, j - 1, t)
    ensures Worked(states, k, j, t) || Closer(g, states, moves, k, j, t)
  {
    RunStep(g, states, moves, j - 1);
    StaysOnCourse(g, states, moves, rank, k, j, t);
  }

  /**
   From any state of any run in which a thread is on course - its block ready, and about to begin an
   iteration, say - until something is marked done, either work has been called since, or the thread is
   still on course and as many steps closer as it has taken.
   */
  lemma {:induction false} ReadyBlockWorks(g: Graph, states: seq<Sys>, moves: seq<Move>, rank: seq<nat>,
                                           k: nat, j: nat, t: nat)
    requires Progress.Provisioned(g, rank) && IsRun(g, states, moves) && k <= j < |states|
    requires OnCourse(g, states[k], t)
    requires Quiet(g, states, k, j)
    ensures Worked(states, k, j, t) || Closer(g, states, moves, k, j, t)
    decreases j
  {
    if k == j {
      CloserAtFirst(g, states, moves, k, t);
    } else {
      ReadyBlockWorks(g, states, moves, rank, k, j - 1, t);
      RunStaysOnCourse(g, states, moves, rank, k, j, t);
    }
  }

  lemma StepsRemain(g: Graph, s: Sys, t: nat)
    requires OnCourse(g, s, t)
    ensures StepsLeft(g, t, s.threads[t].pc) >= 2
  {
  }

  /** So once the thread has taken as many steps as were left, its work has been called. */
  lemma WorkIsCalledInTime(g: Graph, states: seq<Sys>, moves: seq<Move>, rank: seq<nat>, k: nat, j: nat, t: nat)
    requires Progress.Provisioned(g, rank) && IsRun(g, states, moves) && k <= j < |states|
    requires OnCourse(g, states[k], t)
    requires Quiet(g, states, k, j)
    requires OwnSteps(moves, k, j, t) >= StepsLeft(g, t, states[k].threads[t].pc) - 1
    ensures Worked(states, k, j, t)
  {
    ReadyBlockWorks(g, states, moves, rank, k, j, t);
    if !Worked(states, k, j, t) {
      StepsRemain(g, states[j], t);
    }
  }

  /** That is at most one turn: waking up, a step for the flags and one for each input and output, and two more. */
  lemma WorkIsCalledWithinOneTurn(g: Graph, states: seq<Sys>, moves: seq<Move>, rank: seq<nat>, k: nat, j: nat, t: nat)
    requires Progress.Provisioned(g, rank) && IsRun(g, states, moves) && k <= j < |states|
    requires OnCourse(g, states[k], t) && Quiet(g, states, k, j)
    requires OwnSteps(moves, k, j, t) >= |g.nodes[t].inputs| + |g.nodes[t].readers| + 3
    ensures Worked(states, k, j, t)
  {
    WorkIsCalledInTime(g, states, moves, rank, k, j, t);
  }

  /**
   If ever every thread waits and nothing is done, the block named here is on course: it waits for
   input with a timeout, and will call its work in the iteration it then runs.
   */
  lemma AllWaitingOneIsOnCourse(g: Graph, s: Sys, rank: seq<nat>) returns (r: nat)
    requires Progress.Provisioned(g, rank) && Inv(g, s) && Progress.NothingDone(g, s.mem) && |g.nodes| > 0
    requires forall t :: 0 <= t < |g.nodes| ==> Progress.Waiting(s.threads[t])
    ensures OnCourse(g, s, r)
  {
    r := SomeBlockReady(g, s, rank);
    Progress.NeverCrashes(g, s, rank, r);
    assert Progress.Waiting(s.threads[r]) && Warranted(g, s, r);
    if s.threads[r].pc.WaitOut? {
      var p := s.threads[r].pc.at;
      Progress.NobodyOwes(g, s, r, p);
      assert false;
    }
  }
}

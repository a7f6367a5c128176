/**
 One turn of a thread, from clearing its flags to waiting or clearing them again. Looking at the inputs and
 outputs one at a time leads where an iteration on all of them leads; no thread that is awake is ever stuck;
 and a flag is up exactly when its thread was told since it last looked.
 */
module Turns {
  import opened BlockExecutor
  import opened ThreadScheduler
  import Decisions

  // ------------------------------------------------------------------------------------
  // Looking one at a time
  // ------------------------------------------------------------------------------------

  /** Where an iteration that ended so leaves the thread. */
  predicate LeadsTo(ins: seq<InputView>, nouts: nat, o: Outcome, pc: Pc) {
    match o
    case CallWork(n, newAlignment) =>
      && pc.Working? && pc.newAlignment == newAlignment && pc.touched == {} && pc.filled == {}
      && |pc.mayConsume| == |ins| && (forall i :: 0 <= i < |ins| ==> pc.mayConsume[i] == ins[i].avail)
      && |pc.mayProduce| == nouts && (forall k :: 0 <= k < nouts ==> pc.mayProduce[k] == Max(n, 0))
    case BlockedIn => pc == WaitIn(ins)
    case BlockedOut => pc.WaitOut? || pc.WaitIdle?
    case Finished => pc == MarkingDone(0, {}, {})
    case Throws => pc == Crashed
  }

  lemma StartedLeads(ins: seq<InputView>, nouts: nat, o: Outcome)
    ensures LeadsTo(ins, nouts, o, Started(ins, nouts, o))
  {
  }

  lemma DecidedLeads(g: Graph, s: Sys, t: nat, ins: seq<InputView>, outs: seq<OutputView>)
    requires SysOk(g, s) && DecisionOk(g, t, outs) && AlignOk(Exec(g, t), s.threads[t].al)
    ensures var (o, al) := Iterate(Exec(g, t), ins, outs, s.threads[t].al);
            var th := Decided(g, s, t, ins, outs).threads[t];
            LeadsTo(ins, |outs|, o, th.pc) && th.al == al
  {
    StartedLeads(ins, |outs|, Iterate(Exec(g, t), ins, outs, s.threads[t].al).0);
  }

  /** The outputs looked at so far, and the one looked at now, are the first of all outputs. */
  ghost predicate LooksAt(g: Graph, s: Sys, t: nat, outs: seq<OutputView>)
    requires SysOk(g, s) && t < |g.nodes|
  {
    s.threads[t].pc.ReadingOutputs? &&
    var k := |s.threads[t].pc.outs|;
    && k < |outs| == NumOut(g, t) && ViewsOk(outs)
    && outs[..k] == s.threads[t].pc.outs && outs[k] == OutView(g, s.mem, t, k)
  }

  lemma {:induction false} AllFitIsRoom(b: Block, outs: seq<OutputView>)
    requires WellFormed(b) && forall i :: 0 <= i < |outs| ==> CheckOutput(b, outs[i]).Fits?
    ensures MinSpace(b, outs).Room?
  {
    if !MinSpace(b, outs).Room? {
      FirstBlockedDecides(b, outs);
    }
  }

  /** An output that does not fit settles the iteration, whatever the outputs after it. */
  lemma BlockedSettles(g: Graph, s: Sys, t: nat, outs: seq<OutputView>)
    requires Inv(g, s) && t < |g.nodes| && LooksAt(g, s, t, outs)
    requires !CheckOutput(Exec(g, t), outs[|s.threads[t].pc.outs|]).Fits?
    ensures var k, room := |s.threads[t].pc.outs|, MinSpace(Exec(g, t), outs);
            var check := CheckOutput(Exec(g, t), outs[k]);
            && (check.Full? ==> room == OutputFull(k)) && (check.DownstreamDone? ==> room == OutputDone(k))
            && (check.TooSmall? ==> room == OutputTooSmall(k))
  {
    var b, k := Exec(g, t), |s.threads[t].pc.outs|;
    assert PcOk(g, s.mem, t, s.threads[t]);
    AllFitIsRoom(b, outs[..k]);
    assert outs[..k + 1][..k] == outs[..k];
    SettledEarly(b, outs, k + 1);
  }

  /**
   A look at an output either leads on to the next output or ends the looking; then it leads where an
   iteration on all inputs and outputs leads, whatever the outputs not looked at hold.
   */
  lemma OutputsDecideAsIterate(g: Graph, s: Sys, t: nat, s': Sys, outs: seq<OutputView>)
    requires Inv(g, s) && t < |g.nodes| && ReadOutputStep(g, s, t, s') && LooksAt(g, s, t, outs)
    ensures AlignOk(Exec(g, t), s.threads[t].al) && |s'.threads| == |s.threads|
    ensures s'.threads[t].pc.ReadingOutputs? ||
            var (o, al) := Iterate(Exec(g, t), s.threads[t].pc.ins, outs, s.threads[t].al);
            LeadsTo(s.threads[t].pc.ins, |outs|, o, s'.threads[t].pc) && s'.threads[t].al == al
  {
    var b, k := Exec(g, t), |s.threads[t].pc.outs|;
    assert PcOk(g, s.mem, t, s.threads[t]);
    if CheckOutput(b, outs[k]).Fits? {
      if k + 1 == NumOut(g, t) {
        assert outs == s.threads[t].pc.outs + [outs[k]];
        DecidedLeads(g, s, t, s.threads[t].pc.ins, outs);
      }
    } else {
      BlockedSettles(g, s, t, outs);
      assert Iterate(b, s.threads[t].pc.ins, outs, s.threads[t].al).1 == s.threads[t].al;
    }
  }

  /** A sink decides once it has looked at all its inputs, as an iteration on them does. */
  lemma InputsDecideAsIterate(g: Graph, s: Sys, t: nat, s': Sys)
    requires Inv(g, s) && t < |g.nodes| && ReadInputStep(g, s, t, s')
    ensures AlignOk(Exec(g, t), s.threads[t].al) && |s'.threads| == |s.threads|
    ensures s'.threads[t].pc.ReadingInputs? || s'.threads[t].pc == ReadingOutputs(s.threads[t].pc.ins, []) ||
            var (o, al) := Iterate(Exec(g, t), s.threads[t].pc.ins, [], s.threads[t].al);
            LeadsTo(s.threads[t].pc.ins, 0, o, s'.threads[t].pc) && s'.threads[t].al == al
  {
    assert PcOk(g, s.mem, t, s.threads[t]);
    if |s.threads[t].pc.ins| == NumIn(g, t) && NumOut(g, t) == 0 {
      DecidedLeads(g, s, t, s.threads[t].pc.ins, []);
    }
  }

  /** When work returns after it gave all it was asked for, the alignment counter is exact again. */
  lemma ReturnKeepsBooks(g: Graph, s: Sys, t: nat, ins: seq<InputView>, outs: seq<OutputView>, quit: bool, now: Sys,
                         s': Sys, total: nat)
    requires SysOk(g, s) && DecisionOk(g, t, outs) && AlignOk(Exec(g, t), s.threads[t].al)
    requires !Exec(g, t).outputMultipleSet && Exact(Exec(g, t), s.threads[t].al, total)
    requires Exec(g, t).fixedRate || Exec(g, t).outputMultiple <= Exec(g, t).maxNoutput
    requires ins != [] || (outs != [] && !s.threads[t].al.isUnaligned)
    requires Iterate(Exec(g, t), ins, outs, s.threads[t].al).0.CallWork?
    requires SysOk(g, now) && ReturnStep(g, now, t, quit, s')
    requires var was := Decided(g, s, t, ins, outs).threads[t];
             now.threads[t].al == was.al && now.threads[t].pc.newAlignment == was.pc.newAlignment
    ensures |s'.threads| == |g.nodes|
    ensures Iterate(Exec(g, t), ins, outs, s.threads[t].al).0.n > 0
    ensures Exact(Exec(g, t), s'.threads[t].al, total + Iterate(Exec(g, t), ins, outs, s.threads[t].al).0.n)
  {
    WorkKeepsBooksExactlyWhen(Exec(g, t), ins, outs, s.threads[t].al, total);
    WorkIsSafe(Exec(g, t), ins, outs, s.threads[t].al);
  }

  /** A buffer that the block writes or reads is done. */
  ghost predicate SomethingIsDone(g: Graph, m: Buffers, t: nat)
    requires GraphOk(g) && Shaped(g, m) && t < |g.nodes|
  {
    || (exists p: nat :: IsOutput(g, t, p) && IsDone(g, m, t, p))
    || (exists i: nat :: IsInput(g, t, i) && IsDone(g, m, Source(g, t, i).block, Source(g, t, i).port))
  }

  /** Some forecast of the block is negative, or more than the buffer on that input can hold. */
  ghost predicate AsksTheImpossible(g: Graph, t: nat)
    requires GraphOk(g) && t < |g.nodes|
  {
    exists m: nat, i: nat :: IsInput(g, t, i) && ImpossibleForecast(g, t, m, i)
  }

  ghost predicate ImpossibleForecast(g: Graph, t: nat, m: nat, i: nat)
    requires GraphOk(g) && IsInput(g, t, i)
  {
    var src, f := Source(g, t, i), Exec(g, t).forecast(m, i);
    f < 0 || f >= BufSize(g, src.block, src.port)
  }

  lemma FinishedSeesACause(g: Graph, m: Buffers, t: nat, ins: seq<InputView>, outs: seq<OutputView>, al: Align)
    requires GraphOk(g) && Shaped(g, m) && t < |g.nodes| && AlignOk(Exec(g, t), al) && ViewsOk(outs)
    requires |ins| == NumIn(g, t) && InsOk(g, m, t, ins) && |outs| == NumOut(g, t)
    requires forall o :: 0 <= o < |outs| ==> SeenOfOutput(g, m, t, o, outs[o])
    requires Iterate(Exec(g, t), ins, outs, al).0.Finished?
    ensures SomethingIsDone(g, m, t) || AsksTheImpossible(g, t)
  {
    var b := Exec(g, t);
    Decisions.FinishedForACause(b, ins, outs, al);
    if o :| 0 <= o < |outs| && outs[o].done {
      assert SeenOfOutput(g, m, t, o, outs[o]) && IsOutput(g, t, o);
    } else if i :| 0 <= i < |ins| && ins[i].done {
      assert SeenOfInput(g, m, t, i, ins[i]);
    } else {
      var k: nat, i: nat :| Decisions.NeverMet(b, ins, k, i);
      assert SeenOfInput(g, m, t, i, ins[i]);
      assert ImpossibleForecast(g, t, k, i);
    }
  }

  /**
   Apart from its work asking for it, a block starts to end only where a buffer around it is done, or where it
   asks for input that can never be there.
   */
  lemma EndsForACause(g: Graph, s: Sys, t: nat, a: Action, s': Sys)
    requires Inv(g, s) && Step(g, s, t, a, s') && !s.threads[t].pc.MarkingDone? && !a.Return?
    requires |s'.threads| == |g.nodes| && s'.threads[t].pc.MarkingDone?
    ensures SomethingIsDone(g, s.mem, t) || AsksTheImpossible(g, t)
  {
    if a.ReadInput? {
      EndsAtTheInputs(g, s, t, s');
    } else if a.ReadOutput? {
      EndsAtAnOutput(g, s, t, s');
    } else {
      OthersDoNotEnd(g, s, t, a, s');
      assert false;
    }
  }

  lemma OthersDoNotEnd(g: Graph, s: Sys, t: nat, a: Action, s': Sys)
    requires Step(g, s, t, a, s') && !s.threads[t].pc.MarkingDone? && !a.Return? && !a.ReadInput? && !a.ReadOutput?
    requires |s'.threads| == |g.nodes|
    ensures !s'.threads[t].pc.MarkingDone?
  {
    if a.Notify? {
      NotifyEffect(g, s, t, s');
    }
  }

  lemma EndsAtTheInputs(g: Graph, s: Sys, t: nat, s': Sys)
    requires Inv(g, s) && t < |g.nodes| && ReadInputStep(g, s, t, s') && s'.threads[t].pc.MarkingDone?
    ensures SomethingIsDone(g, s.mem, t) || AsksTheImpossible(g, t)
  {
    assert PcOk(g, s.mem, t, s.threads[t]);
    FinishedSeesACause(g, s.mem, t, s.threads[t].pc.ins, [], s.threads[t].al);
  }

  lemma EndsAtAnOutput(g: Graph, s: Sys, t: nat, s': Sys)
    requires Inv(g, s) && t < |g.nodes| && ReadOutputStep(g, s, t, s') && s'.threads[t].pc.MarkingDone?
    ensures SomethingIsDone(g, s.mem, t) || AsksTheImpossible(g, t)
  {
    assert PcOk(g, s.mem, t, s.threads[t]);
    var ins, outs := s.threads[t].pc.ins, s.threads[t].pc.outs;
    var v := OutView(g, s.mem, t, |outs|);
    if CheckOutput(Exec(g, t), v).Fits? {
      FinishedSeesACause(g, s.mem, t, ins, outs + [v], s.threads[t].al);
    } else {
      assert IsOutput(g, t, |outs|);
    }
  }

  // ------------------------------------------------------------------------------------
  // No thread is stuck
  // ------------------------------------------------------------------------------------

  /** A step of its own, not one that a message poster makes for it. */
  ghost predicate CanStep(g: Graph, s: Sys, t: nat) {
    exists a: Action, s' :: !a.Message? && Step(g, s, t, a, s')
  }

  /** Whoever it has yet to tell is a neighbour. */
  ghost predicate TellsNeighbours(g: Graph, t: nat, pc: Pc)
    requires GraphOk(g) && t < |g.nodes|
  {
    pc.Notifying? ==> forall x :: x in pc.targets ==> ValidTarget(g, t, x)
  }

  predicate ValidTarget(g: Graph, t: nat, x: Target) {
    match x
    case Down(r) => r < |g.nodes|
    case Up(i) => IsInput(g, t, i)
  }

  lemma {:induction false} DownTargetsAreBlocks(g: Graph, readers: seq<seq<Port>>)
    requires forall p, x :: 0 <= p < |readers| && x in readers[p] ==> x.block < |g.nodes|
    ensures forall x :: x in DownTargets(readers) ==> x.Down? && x.block < |g.nodes|
  {
    if readers != [] {
      var rest := readers[1..];
      forall p, x: Port | 0 <= p < |rest| && x in rest[p] ensures x.block < |g.nodes| {
        assert x in readers[p + 1];
      }
      DownTargetsAreBlocks(g, rest);
    }
  }

  lemma NeighboursAreValid(g: Graph, t: nat)
    requires GraphOk(g) && t < |g.nodes|
    ensures forall x :: x in Neighbours(g, t) ==> ValidTarget(g, t, x)
    ensures forall x :: x in UpTargets(NumIn(g, t)) ==> ValidTarget(g, t, x)
  {
    forall p, x | 0 <= p < |g.nodes[t].readers| && x in g.nodes[t].readers[p] ensures x.block < |g.nodes| {
      assert IsOutput(g, t, p) && x in Readers(g, t, p);
    }
    DownTargetsAreBlocks(g, g.nodes[t].readers);
  }

  lemma StepKeepsTargets(g: Graph, s: Sys, t: nat, a: Action, s': Sys, u: nat)
    requires Step(g, s, t, a, s') && SysOk(g, s') && u < |g.nodes| && TellsNeighbours(g, u, s.threads[u].pc)
    ensures TellsNeighbours(g, u, s'.threads[u].pc)
  {
    NeighboursAreValid(g, t);
    match a {
      case Notify =>
        NotifyEffect(g, s, t, s');
      case ReadInput => LookingTellsNobody(g, s, t, a, s');
      case ReadOutput => LookingTellsNobody(g, s, t, a, s');
      case _ =>
    }
  }

  lemma LookingTellsNobody(g: Graph, s: Sys, t: nat, a: Action, s': Sys)
    requires Step(g, s, t, a, s') && (a.ReadInput? || a.ReadOutput?) && SysOk(g, s')
    ensures !s'.threads[t].pc.Notifying?
    ensures forall u :: 0 <= u < |g.nodes| && u != t ==> s'.threads[u] == s.threads[u]
  {
  }

  /** A thread that is not asleep, has not ended and has not crashed can take a step. */
  lemma AwakeCanStep(g: Graph, s: Sys, t: nat)
    requires Inv(g, s) && t < |g.nodes| && TellsNeighbours(g, t, s.threads[t].pc)
    requires !Sleeping(s.threads[t]) && !s.threads[t].pc.Dead? && !s.threads[t].pc.Crashed?
    ensures CanStep(g, s, t)
  {
    var th := s.threads[t];
    assert PcOk(g, s.mem, t, th);
    match th.pc {
      case Top =>
        assert Step(g, s, t, Clear, s.(threads := s.threads[t := Thread(ReadingInputs([]), false, false, th.al)]));
      case ReadingInputs(_) => LooksAtInput(g, s, t);
      case ReadingOutputs(_, _) => LooksAtOutput(g, s, t);
      case Working(_, _, _, _, _) => WorkCanReturn(g, s, t);
      case MarkingDone(_, _, _) => MarksOn(g, s, t);
      case Notifying(_, _) => NotifiesOn(g, s, t);
      case WaitIn(_) => assert Step(g, s, t, WakeIn, WithPc(s, t, Top));
      case WaitOut(_) => assert Step(g, s, t, WakeOut, WithPc(s, t, Top));
      case WaitIdle => assert Step(g, s, t, WakeOut, WithPc(s, t, Top));
    }
  }

  lemma LooksAtInput(g: Graph, s: Sys, t: nat)
    requires Inv(g, s) && t < |g.nodes| && s.threads[t].pc.ReadingInputs?
    ensures CanStep(g, s, t)
  {
    var ins := s.threads[t].pc.ins;
    assert PcOk(g, s.mem, t, s.threads[t]);
    if |ins| < NumIn(g, t) {
      assert Step(g, s, t, ReadInput, WithPc(s, t, ReadingInputs(ins + [InView(g, s.mem, t, |ins|)])));
    } else if NumOut(g, t) > 0 {
      assert Step(g, s, t, ReadInput, WithPc(s, t, ReadingOutputs(ins, [])));
    } else {
      assert Step(g, s, t, ReadInput, Decided(g, s, t, ins, []));
    }
  }

  lemma LooksAtOutput(g: Graph, s: Sys, t: nat)
    requires Inv(g, s) && t < |g.nodes| && s.threads[t].pc.ReadingOutputs?
    ensures CanStep(g, s, t)
  {
    var ins, outs := s.threads[t].pc.ins, s.threads[t].pc.outs;
    assert PcOk(g, s.mem, t, s.threads[t]);
    var v := OutView(g, s.mem, t, |outs|);
    match CheckOutput(Exec(g, t), v) {
      case Full => assert Step(g, s, t, ReadOutput, WithPc(s, t, WaitOut(|outs|)));
      case DownstreamDone => assert Step(g, s, t, ReadOutput, WithPc(s, t, MarkingDone(0, {}, {})));
      case TooSmall => assert Step(g, s, t, ReadOutput, WithPc(s, t, Crashed));
      case Fits(_) =>
        if |outs| + 1 < NumOut(g, t) {
          assert Step(g, s, t, ReadOutput, WithPc(s, t, ReadingOutputs(ins, outs + [v])));
        } else {
          assert Step(g, s, t, ReadOutput, Decided(g, s, t, ins, outs + [v]));
        }
    }
  }

  lemma WorkCanReturn(g: Graph, s: Sys, t: nat)
    requires Inv(g, s) && t < |g.nodes| && s.threads[t].pc.Working?
    ensures CanStep(g, s, t)
  {
    var th := s.threads[t];
    var ended := th.(pc := MarkingDone(0, th.pc.touched, th.pc.filled), al := AfterWork(th.al, th.pc.newAlignment));
    assert Step(g, s, t, Return(true), s.(threads := s.threads[t := ended]));
  }

  lemma MarksOn(g: Graph, s: Sys, t: nat)
    requires Inv(g, s) && t < |g.nodes| && s.threads[t].pc.MarkingDone?
    ensures CanStep(g, s, t)
  {
    if s.threads[t].pc.k < NumOut(g, t) + NumIn(g, t) {
      MarksNext(g, s, t);
    } else {
      assert Step(g, s, t, MarkDone, WithPc(s, t, Notifying(Neighbours(g, t), true)));
    }
  }

  lemma MarkedIsOutput(g: Graph, t: nat, k: nat)
    requires GraphOk(g) && t < |g.nodes| && k < NumOut(g, t) + NumIn(g, t)
    ensures IsOutput(g, Marked(g, t, k).block, Marked(g, t, k).port)
  {
    if k >= NumOut(g, t) {
      assert IsInput(g, t, k - NumOut(g, t));
    }
  }

  lemma MarksNext(g: Graph, s: Sys, t: nat)
    requires SysOk(g, s) && t < |g.nodes| && s.threads[t].pc.MarkingDone?
    requires s.threads[t].pc.k < NumOut(g, t) + NumIn(g, t)
    ensures CanStep(g, s, t)
  {
    var th := s.threads[t];
    var b := Marked(g, t, th.pc.k);
    MarkedIsOutput(g, t, th.pc.k);
    var s' := Sys(s.threads[t := th.(pc := th.pc.(k := th.pc.k + 1))],
                  s.mem.(done := s.mem.done[b.block := s.mem.done[b.block][b.port := true]]));
    assert Step(g, s, t, MarkDone, s');
  }

  lemma NotifiesOn(g: Graph, s: Sys, t: nat)
    requires Inv(g, s) && t < |g.nodes| && s.threads[t].pc.Notifying? && TellsNeighbours(g, t, s.threads[t].pc)
    ensures CanStep(g, s, t)
  {
    var pc := s.threads[t].pc;
    if pc.targets == [] {
      assert Step(g, s, t, Notify, WithPc(s, t, if pc.last then Dead else Top));
    } else {
      var s1 := WithPc(s, t, Notifying(pc.targets[1..], pc.last));
      assert ValidTarget(g, t, pc.targets[0]);
      match pc.targets[0] {
        case Down(r) =>
          assert Step(g, s, t, Notify, s1.(threads := s1.threads[r := s1.threads[r].(inputChanged := true)]));
        case Up(i) =>
          var w := Source(g, t, i).block;
          assert Step(g, s, t, Notify, s1.(threads := s1.threads[w := s1.threads[w].(outputChanged := true)]));
      }
    }
  }

  lemma {:induction false} RunTellsNeighbours(g: Graph, states: seq<Sys>, moves: seq<Move>, k: nat, t: nat)
    requires IsRun(g, states, moves) && k < |states| && t < |g.nodes|
    ensures SysOk(g, states[k]) && TellsNeighbours(g, t, states[k].threads[t].pc)
    decreases k
  {
    RunKeepsInv(g, states, moves, k);
    if k > 0 {
      RunTellsNeighbours(g, states, moves, k - 1, t);
      StepKeepsTargets(g, states[k - 1], moves[k - 1].thread, moves[k - 1].action, states[k], t);
    }
  }

  /** In every state of every run, each thread has ended, crashed, waits for output space untold, or can step. */
  lemma NeverStuck(g: Graph, states: seq<Sys>, moves: seq<Move>, k: nat, t: nat)
    requires IsRun(g, states, moves) && k < |states| && t < |g.nodes|
    ensures |states[k].threads| == |g.nodes|
    ensures var th := states[k].threads[t]; th.pc.Dead? || th.pc.Crashed? || Sleeping(th) || CanStep(g, states[k], t)
  {
    RunKeepsInv(g, states, moves, k);
    RunTellsNeighbours(g, states, moves, k, t);
    var th := states[k].threads[t];
    if !th.pc.Dead? && !th.pc.Crashed? && !Sleeping(th) {
      AwakeCanStep(g, states[k], t);
    }
  }

  // ------------------------------------------------------------------------------------
  // A flag is up exactly when its thread was told
  // ------------------------------------------------------------------------------------

  /** A neighbour tells block r about its input, or about its output space, or a message comes, which is both. */
  predicate Tells(g: Graph, s: Sys, mv: Move, r: nat, input: bool) {
    || mv == Move(r, Message)
    || (mv.action.Notify? && mv.thread < |s.threads| && s.threads[mv.thread].pc.Notifying? &&
        var targets := s.threads[mv.thread].pc.targets;
        targets != [] &&
        match targets[0]
        case Down(x) => input && x == r
        case Up(i) => !input && IsInput(g, mv.thread, i) && Source(g, mv.thread, i).block == r)
  }

  predicate Flag(th: Thread, input: bool) {
    if input then th.inputChanged else th.outputChanged
  }

  lemma StepSetsFlag(g: Graph, s: Sys, mv: Move, s': Sys, r: nat, input: bool)
    requires Step(g, s, mv.thread, mv.action, s') && SysOk(g, s') && r < |g.nodes|
    ensures Flag(s'.threads[r], input) <==>
            mv != Move(r, Clear) && (Flag(s.threads[r], input) || Tells(g, s, mv, r, input))
  {
    if mv.action.ReadInput? || mv.action.ReadOutput? {
      LookingLeavesFlags(g, s, mv.thread, mv.action, s');
    }
  }

  lemma LookingLeavesFlags(g: Graph, s: Sys, t: nat, a: Action, s': Sys)
    requires Step(g, s, t, a, s') && (a.ReadInput? || a.ReadOutput?) && SysOk(g, s')
    ensures s'.threads[t].inputChanged == s.threads[t].inputChanged
    ensures s'.threads[t].outputChanged == s.threads[t].outputChanged
    ensures forall u :: 0 <= u < |g.nodes| && u != t ==> s'.threads[u] == s.threads[u]
  {
  }

  /** Told by move j, and not looked since. */
  ghost predicate ToldBy(g: Graph, states: seq<Sys>, moves: seq<Move>, k: nat, r: nat, input: bool, j: nat)
    requires |states| == |moves| + 1 && k < |states|
  {
    && j < k && Tells(g, states[j], moves[j], r, input)
    && forall m :: j < m < k ==> moves[m] != Move(r, Clear)
  }

  /**
   In every state of every run a flag is up if and only if its thread has been told, by a neighbour or a
   message, since it last began an iteration. So a wait for output space ends only after it was told to.
   */
  lemma {:induction false} FlagIsUpExactlyWhenTold(g: Graph, states: seq<Sys>, moves: seq<Move>, k: nat, r: nat,
                                                   input: bool)
    requires IsRun(g, states, moves) && k < |states| && r < |g.nodes|
    ensures |states[k].threads| == |g.nodes|
    ensures Flag(states[k].threads[r], input) <==> exists j: nat :: ToldBy(g, states, moves, k, r, input, j)
    decreases k
  {
    RunKeepsInv(g, states, moves, k);
    if k == 0 {
      assert states[0].threads[r] == Thread(Top, false, false, Align(0, false));
    } else {
      FlagIsUpExactlyWhenTold(g, states, moves, k - 1, r, input);
      FlagAfterMove(g, states, moves, k - 1, r, input);
      ToldAfterMove(g, states, moves, k - 1, k, r, input);
    }
  }

  lemma FlagAfterMove(g: Graph, states: seq<Sys>, moves: seq<Move>, k: nat, r: nat, input: bool)
    requires IsRun(g, states, moves) && k < |moves| && r < |g.nodes|
    ensures |states[k].threads| == |states[k + 1].threads| == |g.nodes|
    ensures Flag(states[k + 1].threads[r], input) <==>
            moves[k] != Move(r, Clear) && (Flag(states[k].threads[r], input) || Tells(g, states[k], moves[k], r, input))
  {
    RunKeepsInv(g, states, moves, k + 1);
    StepSetsFlag(g, states[k], moves[k], states[k + 1], r, input);
  }

  lemma ToldAfterMove(g: Graph, states: seq<Sys>, moves: seq<Move>, k: nat, next: nat, r: nat,
                      input: bool)
    requires |states| == |moves| + 1 && k < |moves| && next == k + 1
    ensures (exists j: nat :: ToldBy(g, states, moves, next, r, input, j)) <==>
            Tells(g, states[k], moves[k], r, input) ||
            (moves[k] != Move(r, Clear) && exists j: nat :: ToldBy(g, states, moves, k, r, input, j))
  {
    if j: nat :| ToldBy(g, states, moves, next, r, input, j) && j < k {
      assert ToldBy(g, states, moves, k, r, input, j);
    }
    if Tells(g, states[k], moves[k], r, input) {
      assert ToldBy(g, states, moves, next, r, input, k);
    }
    if moves[k] != Move(r, Clear) {
      if j: nat :| ToldBy(g, states, moves, k, r, input, j) {
        assert ToldBy(g, states, moves, next, r, input, j);
      }
    }
  }
}

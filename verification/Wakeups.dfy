/**
 The other half of the wakeups. A block that waits for input has looked at every input since it cleared
 its flags; whatever has come since, somebody is about to tell it - but for the end of a stream that a
 fellow reader of the same buffer has marked.
 */
module Wakeups {
  import opened BlockExecutor
  import opened ThreadScheduler

  // ------------------------------------------------------------------------------------
  // What a thread has seen, and who owes it news
  // ------------------------------------------------------------------------------------

  /** What a thread has seen of its inputs since it cleared its flags, as long as it has not acted on it. */
  function Seen(th: Thread): seq<InputView> {
    match th.pc
    case ReadingInputs(ins) => ins
    case ReadingOutputs(ins, _) => ins
    case WaitIn(seen) => seen
    case _ => []
  }

  /** The writer has moved the pointer of output o, or marked it done, and has not yet told block r. */
  predicate OwesDown(th: Thread, o: nat, r: nat) {
    match th.pc
    case Working(_, _, _, filled, _) => o in filled
    case MarkingDone(k, _, filled) => o in filled || o < k
    case Notifying(targets, _) => Down(r) in targets
    case _ => false
  }

  predicate WriterOwes(g: Graph, s: Sys, r: nat, i: nat)
    requires IsInput(g, r, i)
  {
    var src := Source(g, r, i);
    src.block < |s.threads| && OwesDown(s.threads[src.block], src.port, r)
  }

  /** Input i of block r holds what the block saw of it, or its writer is about to tell. */
  ghost predicate ItemsTold(g: Graph, s: Sys, r: nat, i: nat, seen: InputView)
    requires SysOk(g, s) && IsInput(g, r, i)
  {
    Avail(g, s.mem, r, i) == seen.avail || WriterOwes(g, s, r, i)
  }

  ghost predicate Ended(g: Graph, s: Sys, r: nat, i: nat)
    requires SysOk(g, s) && IsInput(g, r, i)
  {
    IsDone(g, s.mem, Source(g, r, i).block, Source(g, r, i).port)
  }

  /** The same of the end of the stream. */
  ghost predicate EndTold(g: Graph, s: Sys, r: nat, i: nat, seen: InputView)
    requires SysOk(g, s) && IsInput(g, r, i)
  {
    Ended(g, s, r, i) == seen.done || WriterOwes(g, s, r, i)
  }

  /** While the flag of block r is down, it is up to date with, or will be told of, the items on every input. */
  ghost predicate UpToDate(g: Graph, s: Sys, r: nat)
    requires SysOk(g, s) && r < |g.nodes|
  {
    |Seen(s.threads[r])| <= NumIn(g, r) &&
    (!s.threads[r].inputChanged ==>
       forall i :: 0 <= i < |Seen(s.threads[r])| ==> ItemsTold(g, s, r, i, Seen(s.threads[r])[i]))
  }

  ghost predicate UpToDateOnEnds(g: Graph, s: Sys, r: nat)
    requires SysOk(g, s) && r < |g.nodes|
  {
    |Seen(s.threads[r])| <= NumIn(g, r) &&
    (!s.threads[r].inputChanged ==>
       forall i :: 0 <= i < |Seen(s.threads[r])| ==> EndTold(g, s, r, i, Seen(s.threads[r])[i]))
  }

  // ------------------------------------------------------------------------------------
  // What the steps of other threads do to an input
  // ------------------------------------------------------------------------------------

  lemma {:induction false} ReadersAreTargets(readers: seq<seq<Port>>, p: nat, x: Port)
    requires p < |readers| && x in readers[p]
    ensures Down(x.block) in DownTargets(readers)
  {
    if p == 0 {
      var j :| 0 <= j < |readers[0]| && readers[0][j] == x;
      assert DownOf(readers[0])[j] == Down(x.block);
    } else {
      ReadersAreTargets(readers[1..], p - 1, x);
    }
  }

  lemma ReaderIsNeighbour(g: Graph, r: nat, i: nat)
    requires GraphOk(g) && IsInput(g, r, i)
    ensures Down(r) in Neighbours(g, Source(g, r, i).block)
  {
    var src := Source(g, r, i);
    assert Port(r, i) in Readers(g, src.block, src.port);
    ReadersAreTargets(g.nodes[src.block].readers, src.port, Port(r, i));
  }

  lemma ReturnKeepsNews(g: Graph, s: Sys, t: nat, quit: bool, s': Sys, r: nat, i: nat)
    requires SysOk(g, s) && t < |g.nodes| && ReturnStep(g, s, t, quit, s') && IsInput(g, r, i)
    requires WriterOwes(g, s, r, i)
    ensures WriterOwes(g, s', r, i)
  {
    ReaderIsNeighbour(g, r, i);
  }

  lemma MarkKeepsNews(g: Graph, s: Sys, t: nat, s': Sys, r: nat, i: nat)
    requires SysOk(g, s) && t < |g.nodes| && MarkDoneStep(g, s, t, s') && IsInput(g, r, i)
    requires WriterOwes(g, s, r, i)
    ensures WriterOwes(g, s', r, i)
  {
    ReaderIsNeighbour(g, r, i);
  }

  /** The debt to block r stays until its flag is set. */
  lemma NotifyKeepsNews(g: Graph, s: Sys, t: nat, s': Sys, r: nat, i: nat)
    requires SysOk(g, s) && t < |g.nodes| && NotifyStep(g, s, t, s') && IsInput(g, r, i)
    requires WriterOwes(g, s, r, i) && !s'.threads[r].inputChanged
    ensures WriterOwes(g, s', r, i)
  {
    NotifyEffect(g, s, t, s');
    var targets := s.threads[t].pc.targets;
    if Source(g, r, i).block == t {
      assert targets[0] != Down(r);
      assert targets == [targets[0]] + targets[1..];
    }
  }

  /** A writer that owes block r goes on owing it until the flag of r is up. */
  lemma NewsIsKept(g: Graph, s: Sys, t: nat, a: Action, s': Sys, r: nat, i: nat)
    requires Step(g, s, t, a, s') && SysOk(g, s') && IsInput(g, r, i)
    requires WriterOwes(g, s, r, i) && !s'.threads[r].inputChanged
    ensures WriterOwes(g, s', r, i)
  {
    match a {
      case Return(quit) => ReturnKeepsNews(g, s, t, quit, s', r, i);
      case MarkDone => MarkKeepsNews(g, s, t, s', r, i);
      case Notify => NotifyKeepsNews(g, s, t, s', r, i);
      case _ =>
    }
  }

  lemma ProducedIsNews(g: Graph, s: Sys, t: nat, o: nat, n: nat, s': Sys, r: nat, i: nat)
    requires SysOk(g, s) && t < |g.nodes| && ProduceStep(g, s, t, o, n, s') && SysOk(g, s') && IsInput(g, r, i)
    ensures Avail(g, s'.mem, r, i) == Avail(g, s.mem, r, i) || WriterOwes(g, s', r, i)
  {
    ProducedAvail(g, s, t, o, n, s');
  }

  /** Another thread changes the items of an input only as its writer, who then owes the news. */
  lemma ItemsAreNews(g: Graph, s: Sys, t: nat, a: Action, s': Sys, r: nat, i: nat)
    requires Inv(g, s) && Step(g, s, t, a, s') && SysOk(g, s') && IsInput(g, r, i) && t != r
    ensures Avail(g, s'.mem, r, i) == Avail(g, s.mem, r, i) || WriterOwes(g, s', r, i)
  {
    match a {
      case Consume(j, n) => ConsumedAvail(g, s, t, j, n, s');
      case Produce(o, n) => ProducedIsNews(g, s, t, o, n, s', r, i);
      case _ => OthersMoveNothing(g, s, t, a, s');
    }
  }

  lemma OthersMoveNothing(g: Graph, s: Sys, t: nat, a: Action, s': Sys)
    requires Step(g, s, t, a, s') && SysOk(g, s') && !a.Consume? && !a.Produce?
    ensures s'.mem.avail == s.mem.avail
  {
  }

  /** Thread t is about to mark done the buffer that input i of block r reads, as a reader of it. */
  ghost predicate MarksAsReader(g: Graph, s: Sys, t: nat, r: nat, i: nat)
    requires SysOk(g, s) && t < |g.nodes| && IsInput(g, r, i)
  {
    s.threads[t].pc.MarkingDone? &&
    var k := s.threads[t].pc.k;
    NumOut(g, t) <= k < NumOut(g, t) + NumIn(g, t) && Source(g, t, k - NumOut(g, t)) == Source(g, r, i)
  }

  /** A mark ends one stream, and no other. */
  lemma MarkEndsOne(g: Graph, s: Sys, t: nat, s': Sys, w: nat, p: nat)
    requires SysOk(g, s) && t < |g.nodes| && MarkDoneStep(g, s, t, s') && SysOk(g, s') && IsOutput(g, w, p)
    ensures var k := s.threads[t].pc.k;
            IsDone(g, s'.mem, w, p) == (IsDone(g, s.mem, w, p) ||
              (k < NumOut(g, t) + NumIn(g, t) && Marked(g, t, k) == Port(w, p)))
  {
  }

  lemma MarkIsNews(g: Graph, s: Sys, t: nat, s': Sys, r: nat, i: nat)
    requires SysOk(g, s) && t < |g.nodes| && MarkDoneStep(g, s, t, s') && SysOk(g, s') && IsInput(g, r, i) && t != r
    ensures MarksAsReader(g, s, t, r, i) ==> Ended(g, s', r, i)
    ensures !MarksAsReader(g, s, t, r, i) ==> Ended(g, s', r, i) == Ended(g, s, r, i) || WriterOwes(g, s', r, i)
  {
    var k, src := s.threads[t].pc.k, Source(g, r, i);
    MarkEndsOne(g, s, t, s', src.block, src.port);
    if k < NumOut(g, t) && Port(t, k) == src {
      MarkedOutputIsOwed(g, s, t, s', r);
    }
  }

  lemma MarkedOutputIsOwed(g: Graph, s: Sys, t: nat, s': Sys, r: nat)
    requires SysOk(g, s) && t < |g.nodes| && MarkDoneStep(g, s, t, s') && s.threads[t].pc.k < NumOut(g, t)
    ensures |s'.threads| == |g.nodes| && OwesDown(s'.threads[t], s.threads[t].pc.k, r)
  {
  }

  /** Another thread ends an input as its writer, who then owes the news, or as a fellow reader. */
  lemma EndIsNews(g: Graph, s: Sys, t: nat, a: Action, s': Sys, r: nat, i: nat)
    requires Step(g, s, t, a, s') && SysOk(g, s') && IsInput(g, r, i) && t != r
    ensures a.MarkDone? && MarksAsReader(g, s, t, r, i) ==> Ended(g, s', r, i)
    ensures !(a.MarkDone? && MarksAsReader(g, s, t, r, i)) ==>
              Ended(g, s', r, i) == Ended(g, s, r, i) || WriterOwes(g, s', r, i)
  {
    if a.MarkDone? {
      MarkIsNews(g, s, t, s', r, i);
    } else {
      OthersEndNothing(g, s, t, a, s');
    }
  }

  lemma OthersEndNothing(g: Graph, s: Sys, t: nat, a: Action, s': Sys)
    requires Step(g, s, t, a, s') && SysOk(g, s') && !a.MarkDone?
    ensures s'.mem.done == s.mem.done
  {
  }

  // ------------------------------------------------------------------------------------
  // Every step
  // ------------------------------------------------------------------------------------

  /** Another thread's step leaves where block r is, and takes its flag down never. */
  lemma OthersLeaveSeen(g: Graph, s: Sys, t: nat, a: Action, s': Sys, r: nat)
    requires Step(g, s, t, a, s') && SysOk(g, s') && r < |g.nodes| && t != r
    ensures Seen(s'.threads[r]) == Seen(s.threads[r])
    ensures s.threads[r].inputChanged ==> s'.threads[r].inputChanged
  {
    if a.Notify? {
      NotifyEffect(g, s, t, s');
    }
  }

  /** Looking at an input or output moves only the thread that looks, which owes nobody news before or after. */
  ghost predicate Looks(g: Graph, s: Sys, s': Sys, r: nat) {
    && SysOk(g, s) && SysOk(g, s') && s'.mem == s.mem && r < |g.nodes|
    && (forall u :: 0 <= u < |g.nodes| && u != r ==> s'.threads[u] == s.threads[u])
    && s'.threads[r].inputChanged == s.threads[r].inputChanged
    && OwesNobody(s.threads[r].pc) && OwesNobody(s'.threads[r].pc)
  }

  predicate OwesNobody(pc: Pc) {
    match pc
    case Working(_, _, _, filled, _) => filled == {}
    case MarkingDone(k, _, filled) => k == 0 && filled == {}
    case Notifying(_, _) => false
    case _ => true
  }

  /** What it has seen after looking: as before, or the next input as well, or it has acted on it. */
  ghost predicate SeesOn(g: Graph, s: Sys, s': Sys, r: nat)
    requires SysOk(g, s) && SysOk(g, s') && r < |g.nodes|
  {
    var before, now := Seen(s.threads[r]), Seen(s'.threads[r]);
    || now == [] || now == before
    || (|before| < NumIn(g, r) && now == before + [InView(g, s.mem, r, |before|)])
  }

  lemma DecidedSees(g: Graph, s: Sys, r: nat, ins: seq<InputView>, outs: seq<OutputView>)
    requires SysOk(g, s) && DecisionOk(g, r, outs) && AlignOk(Exec(g, r), s.threads[r].al)
    ensures var th := Decided(g, s, r, ins, outs).threads[r];
            (Seen(th) == [] || Seen(th) == ins) && OwesNobody(th.pc)
  {
    StartedSees(ins, |outs|, Iterate(Exec(g, r), ins, outs, s.threads[r].al).0);
  }

  lemma StartedSees(ins: seq<InputView>, nouts: nat, o: Outcome)
    ensures OwesNobody(Started(ins, nouts, o))
    ensures forall th: Thread :: th.pc == Started(ins, nouts, o) ==> Seen(th) == [] || Seen(th) == ins
  {
  }

  lemma ReadInputSees(g: Graph, s: Sys, s': Sys, r: nat)
    requires Inv(g, s) && r < |g.nodes| && ReadInputStep(g, s, r, s') && SysOk(g, s')
    ensures Looks(g, s, s', r) && SeesOn(g, s, s', r)
  {
    var ins := s.threads[r].pc.ins;
    assert PcOk(g, s.mem, r, s.threads[r]);
    if |ins| == NumIn(g, r) && NumOut(g, r) == 0 {
      DecidedSees(g, s, r, ins, []);
    }
  }

  lemma ReadOutputSees(g: Graph, s: Sys, s': Sys, r: nat)
    requires Inv(g, s) && r < |g.nodes| && ReadOutputStep(g, s, r, s') && SysOk(g, s')
    ensures Looks(g, s, s', r) && SeesOn(g, s, s', r)
  {
    var ins, outs := s.threads[r].pc.ins, s.threads[r].pc.outs;
    var v := OutView(g, s.mem, r, |outs|);
    match CheckOutput(Exec(g, r), v) {
      case Full => assert s'.threads[r].pc.WaitOut?;
      case DownstreamDone => assert s'.threads[r].pc == MarkingDone(0, {}, {});
      case TooSmall => assert s'.threads[r].pc == Crashed;
      case Fits(_) =>
        if |outs| + 1 == NumOut(g, r) {
          DecidedSees(g, s, r, ins, outs + [v]);
        }
    }
  }

  /** Looking changes neither the inputs nor what their writers owe. */
  lemma LookingChangesNothing(g: Graph, s: Sys, s': Sys, r: nat, i: nat, seen: InputView)
    requires Looks(g, s, s', r) && IsInput(g, r, i)
    ensures ItemsTold(g, s', r, i, seen) == ItemsTold(g, s, r, i, seen)
    ensures EndTold(g, s', r, i, seen) == EndTold(g, s, r, i, seen)
  {
    var w := Source(g, r, i).block;
    assert w < |g.nodes|;
    if w != r {
      assert s'.threads[w] == s.threads[w];
    }
  }

  lemma LookingKeepsUpToDate(g: Graph, s: Sys, s': Sys, r: nat)
    requires Looks(g, s, s', r) && SeesOn(g, s, s', r)
    ensures UpToDate(g, s, r) ==> UpToDate(g, s', r)
    ensures UpToDateOnEnds(g, s, r) ==> UpToDateOnEnds(g, s', r)
  {
    var before, now := Seen(s.threads[r]), Seen(s'.threads[r]);
    forall i | 0 <= i < |now| && i < NumIn(g, r)
      ensures (i < |before| && now[i] == before[i]) || now[i] == InView(g, s.mem, r, i)
      ensures ItemsTold(g, s', r, i, now[i]) == ItemsTold(g, s, r, i, now[i])
      ensures EndTold(g, s', r, i, now[i]) == EndTold(g, s, r, i, now[i])
    {
      LookingChangesNothing(g, s, s', r, i, now[i]);
    }
  }

  /** By any other step of its own a thread acts on what it has seen, or a message has set its flag. */
  lemma OtherwiseItActs(g: Graph, s: Sys, a: Action, s': Sys, r: nat)
    requires Step(g, s, r, a, s') && SysOk(g, s') && !a.ReadInput? && !a.ReadOutput? && !a.Message?
    ensures Seen(s'.threads[r]) == []
  {
    if a.Notify? {
      NotifyEffect(g, s, r, s');
    }
  }

  lemma OwnStepKeepsUpToDate(g: Graph, s: Sys, a: Action, s': Sys, r: nat)
    requires Inv(g, s) && Step(g, s, r, a, s') && SysOk(g, s')
    ensures UpToDate(g, s, r) ==> UpToDate(g, s', r)
    ensures UpToDateOnEnds(g, s, r) ==> UpToDateOnEnds(g, s', r)
  {
    if a.ReadInput? {
      ReadInputSees(g, s, s', r);
      LookingKeepsUpToDate(g, s, s', r);
    } else if a.ReadOutput? {
      ReadOutputSees(g, s, s', r);
      LookingKeepsUpToDate(g, s, s', r);
    } else if a.Message? {
      MessageKeepsUpToDate(g, s, s', r);
    } else {
      OtherwiseItActs(g, s, a, s', r);
    }
  }

  lemma MessageKeepsUpToDate(g: Graph, s: Sys, s': Sys, r: nat)
    requires SysOk(g, s) && SysOk(g, s') && r < |g.nodes| && MessageStep(g, s, r, s')
    ensures UpToDate(g, s, r) ==> UpToDate(g, s', r)
    ensures UpToDateOnEnds(g, s, r) ==> UpToDateOnEnds(g, s', r)
  {
    assert Seen(s'.threads[r]) == Seen(s.threads[r]) && s'.threads[r].inputChanged;
  }

  /** No step of any thread leaves block r behind on items. */
  lemma StepKeepsUpToDate(g: Graph, s: Sys, t: nat, a: Action, s': Sys, r: nat)
    requires Inv(g, s) && Step(g, s, t, a, s') && SysOk(g, s') && r < |g.nodes| && UpToDate(g, s, r)
    ensures UpToDate(g, s', r)
  {
    if t == r {
      OwnStepKeepsUpToDate(g, s, a, s', r);
    } else {
      OthersLeaveSeen(g, s, t, a, s', r);
      var seen := Seen(s.threads[r]);
      if !s'.threads[r].inputChanged {
        forall i | 0 <= i < |seen| ensures ItemsTold(g, s', r, i, seen[i]) {
          assert ItemsTold(g, s, r, i, seen[i]);
          ItemsAreNews(g, s, t, a, s', r, i);
          if WriterOwes(g, s, r, i) {
            NewsIsKept(g, s, t, a, s', r, i);
          }
        }
      }
    }
  }

  /** The step ends a stream that block r has seen going on, with nobody about to tell it. */
  ghost predicate EndsUnseen(g: Graph, s: Sys, t: nat, a: Action, r: nat)
    requires SysOk(g, s) && t < |g.nodes| && r < |g.nodes|
  {
    && a.MarkDone? && t != r && !s.threads[r].inputChanged
    && exists i :: 0 <= i < |Seen(s.threads[r])| && EndsUnseenOn(g, s, t, r, i)
  }

  ghost predicate EndsUnseenOn(g: Graph, s: Sys, t: nat, r: nat, i: nat)
    requires SysOk(g, s) && t < |g.nodes| && r < |g.nodes| && i < |Seen(s.threads[r])|
  {
    IsInput(g, r, i) && MarksAsReader(g, s, t, r, i) && !Seen(s.threads[r])[i].done && !WriterOwes(g, s, r, i)
  }

  /** A step leaves block r behind on ends if and only if it ends a stream unseen. */
  lemma StepKeepsEndsExactlyWhen(g: Graph, s: Sys, t: nat, a: Action, s': Sys, r: nat)
    requires Inv(g, s) && Step(g, s, t, a, s') && SysOk(g, s') && r < |g.nodes| && UpToDateOnEnds(g, s, r)
    ensures UpToDateOnEnds(g, s', r) <==> !EndsUnseen(g, s, t, a, r)
  {
    if t == r {
      OwnStepKeepsUpToDate(g, s, a, s', r);
    } else {
      OthersLeaveSeen(g, s, t, a, s', r);
      if EndsUnseen(g, s, t, a, r) {
        UnseenEndIsNotTold(g, s, t, a, s', r);
      } else if !s'.threads[r].inputChanged {
        var seen := Seen(s.threads[r]);
        forall i | 0 <= i < |seen| ensures EndTold(g, s', r, i, seen[i]) {
          SeenEndIsTold(g, s, t, a, s', r, i);
        }
      }
    }
  }

  lemma UnseenEndIsNotTold(g: Graph, s: Sys, t: nat, a: Action, s': Sys, r: nat)
    requires Inv(g, s) && Step(g, s, t, a, s') && SysOk(g, s') && r < |g.nodes| && UpToDateOnEnds(g, s, r)
    requires EndsUnseen(g, s, t, a, r)
    ensures !UpToDateOnEnds(g, s', r)
  {
    OthersLeaveSeen(g, s, t, a, s', r);
    var i :| 0 <= i < |Seen(s.threads[r])| && EndsUnseenOn(g, s, t, r, i);
    EndIsNews(g, s, t, a, s', r, i);
    assert Source(g, r, i).block != t;
    assert !EndTold(g, s', r, i, Seen(s.threads[r])[i]);
  }

  lemma SeenEndIsTold(g: Graph, s: Sys, t: nat, a: Action, s': Sys, r: nat, i: nat)
    requires Inv(g, s) && Step(g, s, t, a, s') && SysOk(g, s') && r < |g.nodes| && UpToDateOnEnds(g, s, r)
    requires t != r && !EndsUnseen(g, s, t, a, r) && i < |Seen(s.threads[r])|
    requires !s.threads[r].inputChanged && !s'.threads[r].inputChanged
    ensures EndTold(g, s', r, i, Seen(s.threads[r])[i])
  {
    assert EndTold(g, s, r, i, Seen(s.threads[r])[i]);
    EndIsNews(g, s, t, a, s', r, i);
    if WriterOwes(g, s, r, i) {
      NewsIsKept(g, s, t, a, s', r, i);
    } else if a.MarkDone? && MarksAsReader(g, s, t, r, i) {
      assert !EndsUnseenOn(g, s, t, r, i);
    }
  }

  // ------------------------------------------------------------------------------------
  // Runs
  // ------------------------------------------------------------------------------------

  lemma MoveKeepsUpToDate(g: Graph, states: seq<Sys>, moves: seq<Move>, j: nat, r: nat)
    requires IsRun(g, states, moves) && j < |moves| && r < |g.nodes|
    requires SysOk(g, states[j]) && UpToDate(g, states[j], r)
    ensures SysOk(g, states[j + 1]) && UpToDate(g, states[j + 1], r)
  {
    RunKeepsInv(g, states, moves, j);
    MoveIsSound(g, states, moves, j);
    StepKeepsUpToDate(g, states[j], moves[j].thread, moves[j].action, states[j + 1], r);
  }

  /** In every state of every run, every block is up to date on items or will be told. */
  lemma {:induction false} RunKeepsUpToDate(g: Graph, states: seq<Sys>, moves: seq<Move>, k: nat, r: nat)
    requires IsRun(g, states, moves) && k < |states| && r < |g.nodes|
    ensures SysOk(g, states[k]) && UpToDate(g, states[k], r)
    decreases k
  {
    if k == 0 {
      assert states[0].threads[r] == Thread(Top, false, false, Align(0, false));
    } else {
      RunKeepsUpToDate(g, states, moves, k - 1, r);
      MoveKeepsUpToDate(g, states, moves, k - 1, r);
    }
  }

  /** Move j of a run ends a stream that block r has seen going on, untold. */
  ghost predicate MoveEndsUnseen(g: Graph, states: seq<Sys>, moves: seq<Move>, j: nat, r: nat)
    requires IsRun(g, states, moves) && j < |moves| && r < |g.nodes|
  {
    Step(g, states[j], moves[j].thread, moves[j].action, states[j + 1]) &&
    EndsUnseen(g, states[j], moves[j].thread, moves[j].action, r)
  }

  lemma MoveKeepsEnds(g: Graph, states: seq<Sys>, moves: seq<Move>, j: nat, r: nat)
    requires IsRun(g, states, moves) && j < |moves| && r < |g.nodes|
    requires SysOk(g, states[j]) && UpToDateOnEnds(g, states[j], r)
    ensures SysOk(g, states[j + 1])
    ensures UpToDateOnEnds(g, states[j + 1], r) || MoveEndsUnseen(g, states, moves, j, r)
  {
    RunKeepsInv(g, states, moves, j);
    RunKeepsInv(g, states, moves, j + 1);
    StepKeepsEndsExactlyWhen(g, states[j], moves[j].thread, moves[j].action, states[j + 1], r);
  }

  ghost predicate LeftBehind(g: Graph, states: seq<Sys>, moves: seq<Move>, k: nat, r: nat)
    requires IsRun(g, states, moves) && k < |states| && r < |g.nodes|
  {
    exists j :: 0 <= j < k && MoveEndsUnseen(g, states, moves, j, r)
  }

  lemma LeftBehindStays(g: Graph, states: seq<Sys>, moves: seq<Move>, k: nat, r: nat)
    requires IsRun(g, states, moves) && k < |moves| && r < |g.nodes|
    ensures LeftBehind(g, states, moves, k, r) ==> LeftBehind(g, states, moves, k + 1, r)
    ensures MoveEndsUnseen(g, states, moves, k, r) ==> LeftBehind(g, states, moves, k + 1, r)
  {
  }

  /** A block that is behind on the end of a stream was left so by a fellow reader earlier in the run. */
  lemma {:induction false} BehindSinceAnUnseenEnd(g: Graph, states: seq<Sys>, moves: seq<Move>, k: nat, r: nat)
    requires IsRun(g, states, moves) && k < |states| && r < |g.nodes|
    ensures SysOk(g, states[k])
    ensures UpToDateOnEnds(g, states[k], r) || LeftBehind(g, states, moves, k, r)
    decreases k
  {
    if k == 0 {
      assert states[0].threads[r] == Thread(Top, false, false, Align(0, false));
    } else {
      BehindSinceAnUnseenEnd(g, states, moves, k - 1, r);
      LeftBehindStays(g, states, moves, k - 1, r);
      if UpToDateOnEnds(g, states[k - 1], r) {
        MoveKeepsEnds(g, states, moves, k - 1, r);
      } else {
        MoveIsSound(g, states, moves, k - 1);
      }
    }
  }

  lemma MoveIsSound(g: Graph, states: seq<Sys>, moves: seq<Move>, j: nat)
    requires IsRun(g, states, moves) && j < |moves|
    ensures SysOk(g, states[j + 1])
  {
    RunKeepsInv(g, states, moves, j + 1);
  }

  /** Block r shares none of its inputs' buffers with another block. */
  ghost predicate SoleReader(g: Graph, r: nat) {
    GraphOk(g) &&
    forall i: nat, t: nat, j: nat ::
      IsInput(g, r, i) && IsInput(g, t, j) && Source(g, t, j) == Source(g, r, i) ==> t == r
  }

  /**
   A block that waits for input with its flag down has seen all there is, items and ends, unless a writer
   is about to tell it; for ends, this takes that it shares no buffer.
   */
  lemma WaitsWithNothingNew(g: Graph, states: seq<Sys>, moves: seq<Move>, k: nat, r: nat, i: nat)
    requires IsRun(g, states, moves) && k < |states| && IsInput(g, r, i)
    requires SysOk(g, states[k]) && states[k].threads[r].pc.WaitIn? && !states[k].threads[r].inputChanged
    ensures NumIn(g, r) == |states[k].threads[r].pc.seen|
    ensures ItemsTold(g, states[k], r, i, states[k].threads[r].pc.seen[i])
    ensures SoleReader(g, r) ==> EndTold(g, states[k], r, i, states[k].threads[r].pc.seen[i])
  {
    RunKeepsUpToDate(g, states, moves, k, r);
    WaitedForAll(g, states, moves, k, r);
    WaitingIsTold(g, states[k], r, i);
    SoleReaderIsToldOfEnds(g, states, moves, k, r);
  }

  lemma WaitedForAll(g: Graph, states: seq<Sys>, moves: seq<Move>, k: nat, r: nat)
    requires IsRun(g, states, moves) && k < |states| && r < |g.nodes|
    ensures SysOk(g, states[k])
    ensures states[k].threads[r].pc.WaitIn? ==> |states[k].threads[r].pc.seen| == NumIn(g, r)
  {
    RunKeepsInv(g, states, moves, k);
    assert PcOk(g, states[k].mem, r, states[k].threads[r]);
  }

  lemma WaitingIsTold(g: Graph, s: Sys, r: nat, i: nat)
    requires SysOk(g, s) && IsInput(g, r, i) && s.threads[r].pc.WaitIn? && !s.threads[r].inputChanged
    requires UpToDate(g, s, r) && |s.threads[r].pc.seen| == NumIn(g, r)
    ensures ItemsTold(g, s, r, i, s.threads[r].pc.seen[i])
    ensures UpToDateOnEnds(g, s, r) ==> EndTold(g, s, r, i, s.threads[r].pc.seen[i])
  {
  }

  lemma SoleReaderIsToldOfEnds(g: Graph, states: seq<Sys>, moves: seq<Move>, k: nat, r: nat)
    requires IsRun(g, states, moves) && k < |states| && r < |g.nodes|
    ensures SysOk(g, states[k]) && (SoleReader(g, r) ==> UpToDateOnEnds(g, states[k], r))
  {
    BehindSinceAnUnseenEnd(g, states, moves, k, r);
    if LeftBehind(g, states, moves, k, r) {
      LeftBehindShares(g, states, moves, k, r);
    }
  }

  /** Whoever was left behind shares a buffer. */
  lemma LeftBehindShares(g: Graph, states: seq<Sys>, moves: seq<Move>, k: nat, r: nat)
    requires IsRun(g, states, moves) && k < |states| && r < |g.nodes| && LeftBehind(g, states, moves, k, r)
    ensures !SoleReader(g, r)
  {
    var j :| 0 <= j < k && MoveEndsUnseen(g, states, moves, j, r);
    UnseenEndIsShared(g, states[j], moves[j].thread, moves[j].action, r);
  }

  lemma UnseenEndIsShared(g: Graph, s: Sys, t: nat, a: Action, r: nat)
    requires SysOk(g, s) && t < |g.nodes| && r < |g.nodes| && EndsUnseen(g, s, t, a, r)
    ensures !SoleReader(g, r)
  {
    var x :| 0 <= x < |Seen(s.threads[r])| && EndsUnseenOn(g, s, t, r, x);
    var y: nat := s.threads[t].pc.k - NumOut(g, t);
    assert IsInput(g, r, x) && IsInput(g, t, y) && Source(g, t, y) == Source(g, r, x);
  }

  // ------------------------------------------------------------------------------------
  // A run in which an end is not told
  // ------------------------------------------------------------------------------------

  /** A block that takes and gives one for one. */
  function Plain(): Block {
    Block(1, false, 0, 100, false, (a: nat) => a, (n: nat, i: nat) => n, 1, 1, false)
  }

  /** A source with two sinks on its output. */
  function Fork(): Graph {
    Graph([Node(Plain(), 1, [], [[Port(1, 0), Port(2, 0)]]), Node(Plain(), 2, [Port(0, 0)], []),
           Node(Plain(), 1, [Port(0, 0)], [])], [[100], [], []])
  }

  function Standing(pc: Pc): Thread {
    Thread(pc, false, false, Align(0, false))
  }

  /** The first sink has its preload of one item to read, the second nothing. */
  function Forked(first: Pc, second: Pc, done: bool): Sys {
    Sys([Standing(Top), Standing(first), Standing(second)], Buffers([[], [1], [0]], [[done], [], []]))
  }

  lemma ForkIsOk()
    ensures GraphOk(Fork())
  {
    var g := Fork();
    assert Readers(g, 0, 0) == [Port(1, 0), Port(2, 0)];
    forall w: nat, p: nat | IsOutput(g, w, p) ensures w == 0 && p == 0 {
    }
    forall r: nat, i: nat | IsInput(g, r, i) ensures (r == 1 || r == 2) && i == 0 && Source(g, r, i) == Port(0, 0) {
    }
    assert Readers(g, 0, 0)[0] == Port(1, 0) && Readers(g, 0, 0)[1] == Port(2, 0);
  }

  lemma ForkedIsOk(first: Pc, second: Pc, done: bool)
    ensures SysOk(Fork(), Forked(first, second, done))
  {
    ForkIsOk();
  }

  lemma ForkBegins()
    ensures Init(Fork(), Forked(Top, Top, false))
  {
    var g, s := Fork(), Forked(Top, Top, false);
    ForkedIsOk(Top, Top, false);
    forall r: nat, i: nat | IsInput(g, r, i)
      ensures Avail(g, s.mem, r, i) < BufSize(g, Source(g, r, i).block, Source(g, r, i).port)
    {
      assert (r == 1 || r == 2) && i == 0;
    }
    forall w: nat, p: nat | IsOutput(g, w, p) ensures !IsDone(g, s.mem, w, p) {
      assert w == 0 && p == 0;
    }
  }

  /** The second sink finds nothing, and waits. */
  lemma SecondWaits()
    ensures Step(Fork(), Forked(Top, Top, false), 2, Clear, Forked(Top, ReadingInputs([]), false))
    ensures Step(Fork(), Forked(Top, ReadingInputs([]), false), 2, ReadInput,
                 Forked(Top, ReadingInputs([InputView(0, false, 99)]), false))
    ensures Step(Fork(), Forked(Top, ReadingInputs([InputView(0, false, 99)]), false), 2, ReadInput,
                 Forked(Top, WaitIn([InputView(0, false, 99)]), false))
  {
    var g, v := Fork(), InputView(0, false, 99);
    ForkedIsOk(Top, Top, false);
    ForkedIsOk(Top, ReadingInputs([]), false);
    assert InView(g, Forked(Top, ReadingInputs([]), false).mem, 2, 0) == v && [] + [v] == [v];
    ForkedIsOk(Top, ReadingInputs([v]), false);
    MaxAvailIsMax([v]);
    assert MaxAvail([v]) == 0;
    assert Iterate(Plain(), [v], [], Align(0, false)) == (BlockedIn, Align(0, false));
  }

  /** The first sink looks at its input. */
  lemma FirstLooks(second: Pc)
    ensures Step(Fork(), Forked(Top, second, false), 1, Clear, Forked(ReadingInputs([]), second, false))
    ensures Step(Fork(), Forked(ReadingInputs([]), second, false), 1, ReadInput,
                 Forked(ReadingInputs([InputView(1, false, 99)]), second, false))
  {
    var g, v := Fork(), InputView(1, false, 99);
    ForkedIsOk(Top, second, false);
    ForkedIsOk(ReadingInputs([]), second, false);
    assert InView(g, Forked(ReadingInputs([]), second, false).mem, 1, 0) == v && [] + [v] == [v];
  }

  /** It is given work for its one item. */
  lemma FirstWorks(second: Pc)
    ensures Step(Fork(), Forked(ReadingInputs([InputView(1, false, 99)]), second, false), 1, ReadInput,
                 Forked(Working([1], [], {}, {}, 0), second, false))
  {
    var v := InputView(1, false, 99);
    ForkedIsOk(ReadingInputs([v]), second, false);
    OneItemWorks();
    OneItemStarts(v);
  }

  lemma OneItemStarts(v: InputView)
    requires v.avail == 1
    ensures Started([v], 0, CallWork(1, 0)) == Working([1], [], {}, {}, 0)
  {
    assert seq(1, i requires 0 <= i < 1 => [v][i].avail) == [1] && seq(0, k => 1) == [];
  }

  lemma OneItemWorks()
    ensures Iterate(Plain(), [InputView(1, false, 99)], [], Align(0, false)) == (CallWork(1, 0), Align(0, false))
  {
    var b, ins := Plain(), [InputView(1, false, 99)];
    MaxAvailIsMax(ins);
    assert MaxAvail(ins) == 1 && SinkRequest(b, ins) == 1;
    assert OnePass(b, 1, Align(0, false), 1, 100, 0) == Pass(1, 100, 0, OnBoundary, Align(0, false));
    assert CheckInputs(b, ins, 1, 0) == AllMet;
  }

  /** Its work asks for no more. */
  lemma FirstReturns(second: Pc)
    ensures Step(Fork(), Forked(Working([1], [], {}, {}, 0), second, false), 1, Return(true),
                 Forked(MarkingDone(0, {}, {}), second, false))
  {
    ForkedIsOk(Working([1], [], {}, {}, 0), second, false);
  }

  /** It marks the buffer it reads done. */
  lemma FirstMarks(second: Pc)
    ensures Step(Fork(), Forked(MarkingDone(0, {}, {}), second, false), 1, MarkDone,
                 Forked(MarkingDone(1, {}, {}), second, true))
  {
    var s, s' := Forked(MarkingDone(0, {}, {}), second, false), Forked(MarkingDone(1, {}, {}), second, true);
    ForkedIsOk(MarkingDone(0, {}, {}), second, false);
    assert s.mem.done[0][0 := true] == [true] && s.mem.done[0 := [true]] == s'.mem.done;
    MarkIsStep(Fork(), s, s');
  }

  /** A sink's one mark. */
  lemma MarkIsStep(g: Graph, s: Sys, s': Sys)
    requires SysOk(g, s) && |g.nodes| > 1 && NumOut(g, 1) == 0 && NumIn(g, 1) == 1 && Source(g, 1, 0) == Port(0, 0)
    requires s.threads[1] == Standing(MarkingDone(0, {}, {})) && IsOutput(g, 0, 0)
    requires s' == Sys(s.threads[1 := Standing(MarkingDone(1, {}, {}))],
                       s.mem.(done := s.mem.done[0 := s.mem.done[0][0 := true]]))
    ensures Step(g, s, 1, MarkDone, s')
  {
    assert Marked(g, 1, 0) == Port(0, 0);
  }

  lemma ForkOneMore(before: seq<Sys>, made: seq<Move>, t: nat, a: Action, s: Sys)
    returns (states: seq<Sys>, moves: seq<Move>)
    requires IsRun(Fork(), before, made) && Step(Fork(), before[|before| - 1], t, a, s)
    ensures IsRun(Fork(), states, moves) && states[|states| - 1] == s
  {
    RunOneMore(Fork(), before, made, Move(t, a), s);
    states, moves := before + [s], made + [Move(t, a)];
  }

  lemma RunToTheWait() returns (states: seq<Sys>, moves: seq<Move>)
    ensures IsRun(Fork(), states, moves)
    ensures states[|states| - 1] == Forked(Top, WaitIn([InputView(0, false, 99)]), false)
  {
    ForkBegins();
    SecondWaits();
    states, moves := [Forked(Top, Top, false)], [];
    assert IsRun(Fork(), states, moves);
    states, moves := ForkOneMore(states, moves, 2, Clear, Forked(Top, ReadingInputs([]), false));
    states, moves := ForkOneMore(states, moves, 2, ReadInput,
      Forked(Top, ReadingInputs([InputView(0, false, 99)]), false));
    states, moves := ForkOneMore(states, moves, 2, ReadInput, Forked(Top, WaitIn([InputView(0, false, 99)]), false));
  }

  /** A run after which a block waits for input that has ended, and no thread will tell it so. */
  lemma FellowsEndIsNotTold() returns (states: seq<Sys>, moves: seq<Move>)
    ensures IsRun(Fork(), states, moves)
    ensures var s := states[|states| - 1];
            && SysOk(Fork(), s) && s.threads[2].pc.WaitIn? && !s.threads[2].inputChanged
            && |s.threads[2].pc.seen| == 1 && IsInput(Fork(), 2, 0)
            && Ended(Fork(), s, 2, 0) && !EndTold(Fork(), s, 2, 0, s.threads[2].pc.seen[0])
  {
    states, moves := RunToTheWait();
    var w := WaitIn([InputView(0, false, 99)]);
    FirstLooks(w);
    FirstWorks(w);
    FirstReturns(w);
    FirstMarks(w);
    states, moves := ForkOneMore(states, moves, 1, Clear, Forked(ReadingInputs([]), w, false));
    states, moves := ForkOneMore(states, moves, 1, ReadInput,
      Forked(ReadingInputs([InputView(1, false, 99)]), w, false));
    states, moves := ForkOneMore(states, moves, 1, ReadInput, Forked(Working([1], [], {}, {}, 0), w, false));
    states, moves := ForkOneMore(states, moves, 1, Return(true), Forked(MarkingDone(0, {}, {}), w, false));
    states, moves := ForkOneMore(states, moves, 1, MarkDone, Forked(MarkingDone(1, {}, {}), w, true));
    ForkedIsOk(MarkingDone(1, {}, {}), w, true);
  }
}

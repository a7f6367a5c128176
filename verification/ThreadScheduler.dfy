/**
 The thread-per-block scheduler as a state machine. Every access to shared state that the code
 makes under one lock is one step: clearing the changed flags, reading one input, reading one
 output, moving one pointer, marking one buffer done, setting one neighbour's flag, waking up.
 */
module ThreadScheduler {
  import opened Rounding
  import opened BlockExecutor
  import BufferSizing

  // ------------------------------------------------------------------------------------
  // The wired graph
  // ------------------------------------------------------------------------------------

  datatype Port = Port(block: nat, port: nat)

  /** `inputs[i]` is the output that feeds input i; `readers[o]` are the readers of output o's buffer. */
  datatype Node = Node(exec: Block, history: nat, inputs: seq<Port>, readers: seq<seq<Port>>)

  datatype Graph = Graph(nodes: seq<Node>, bufsize: seq<seq<nat>>)

  predicate IsInput(g: Graph, r: nat, i: nat) {
    r < |g.nodes| && i < |g.nodes[r].inputs|
  }

  predicate IsOutput(g: Graph, w: nat, p: nat) {
    w < |g.nodes| && p < |g.nodes[w].readers|
  }

  function Source(g: Graph, r: nat, i: nat): Port
    requires IsInput(g, r, i)
  {
    g.nodes[r].inputs[i]
  }

  function Readers(g: Graph, w: nat, p: nat): seq<Port>
    requires IsOutput(g, w, p)
  {
    g.nodes[w].readers[p]
  }

  ghost predicate GraphOk(g: Graph) {
    && |g.bufsize| == |g.nodes|
    && (forall w :: 0 <= w < |g.nodes| ==>
          && |g.bufsize[w]| == |g.nodes[w].readers|
          && WellFormed(g.nodes[w].exec)
          && (g.nodes[w].inputs != [] || g.nodes[w].readers != []))
    && (forall w: nat, p: nat :: IsOutput(g, w, p) ==> 1 <= g.bufsize[w][p] <= INT_MAX)
    && (forall r: nat, i: nat :: IsInput(g, r, i) ==>
          && IsOutput(g, Source(g, r, i).block, Source(g, r, i).port)
          && Port(r, i) in Readers(g, Source(g, r, i).block, Source(g, r, i).port))
    && (forall w: nat, p: nat, x :: IsOutput(g, w, p) && x in Readers(g, w, p) ==>
          IsInput(g, x.block, x.port) && Source(g, x.block, x.port) == Port(w, p))
  }

  function BufSize(g: Graph, w: nat, p: nat): nat
    requires GraphOk(g) && IsOutput(g, w, p)
  {
    g.bufsize[w][p]
  }

  // ------------------------------------------------------------------------------------
  // Shared state
  // ------------------------------------------------------------------------------------

  /** `avail[r][i]` is what reader (r, i) may still read; `done[w][p]` is that buffer's done flag. */
  datatype Buffers = Buffers(avail: seq<seq<nat>>, done: seq<seq<bool>>)

  predicate Shaped(g: Graph, m: Buffers) {
    && |m.avail| == |g.nodes| && |m.done| == |g.nodes|
    && (forall t :: 0 <= t < |g.nodes| ==>
          |m.avail[t]| == |g.nodes[t].inputs| && |m.done[t]| == |g.nodes[t].readers|)
  }

  function Avail(g: Graph, m: Buffers, r: nat, i: nat): nat
    requires Shaped(g, m) && IsInput(g, r, i)
  {
    m.avail[r][i]
  }

  function IsDone(g: Graph, m: Buffers, w: nat, p: nat): bool
    requires Shaped(g, m) && IsOutput(g, w, p)
  {
    m.done[w][p]
  }

  ghost predicate AllInputs(g: Graph, rs: seq<Port>) {
    forall x :: x in rs ==> IsInput(g, x.block, x.port)
  }

  /** The most that any of the readers has left to read. */
  ghost function MostData(g: Graph, m: Buffers, rs: seq<Port>): nat
    requires Shaped(g, m) && AllInputs(g, rs)
  {
    if rs == [] then 0
    else Max(Avail(g, m, rs[0].block, rs[0].port), MostData(g, m, rs[1..]))
  }

  lemma {:induction false} MostDataBounds(g: Graph, m: Buffers, rs: seq<Port>)
    requires Shaped(g, m) && AllInputs(g, rs)
    ensures forall x :: x in rs ==> Avail(g, m, x.block, x.port) <= MostData(g, m, rs)
    ensures rs != [] ==> exists x :: x in rs && Avail(g, m, x.block, x.port) == MostData(g, m, rs)
  {
    if rs != [] {
      MostDataBounds(g, m, rs[1..]);
      if MostData(g, m, rs) == Avail(g, m, rs[0].block, rs[0].port) {
        assert rs[0] in rs;
      } else {
        var x :| x in rs[1..] && Avail(g, m, x.block, x.port) == MostData(g, m, rs[1..]);
        assert x in rs;
      }
    }
  }

  ghost function Space(g: Graph, m: Buffers, w: nat, p: nat): nat
    requires GraphOk(g) && Shaped(g, m) && IsOutput(g, w, p)
  {
    var most := MostData(g, m, Readers(g, w, p));
    if most < BufSize(g, w, p) then BufSize(g, w, p) - most - 1 else 0
  }

  ghost function InView(g: Graph, m: Buffers, r: nat, i: nat): InputView
    requires GraphOk(g) && Shaped(g, m) && IsInput(g, r, i)
  {
    var s := Source(g, r, i);
    InputView(Avail(g, m, r, i), IsDone(g, m, s.block, s.port), BufSize(g, s.block, s.port) - 1)
  }

  ghost function OutView(g: Graph, m: Buffers, w: nat, p: nat): OutputView
    requires GraphOk(g) && Shaped(g, m) && IsOutput(g, w, p)
  {
    OutputView(Space(g, m, w, p), BufSize(g, w, p), IsDone(g, m, w, p))
  }

  /** No reader ever has a full buffer to read: one slot always stays free. */
  ghost predicate BuffersOk(g: Graph, m: Buffers) {
    GraphOk(g) && Shaped(g, m) &&
    forall r: nat, i: nat :: IsInput(g, r, i) ==>
      Avail(g, m, r, i) < BufSize(g, Source(g, r, i).block, Source(g, r, i).port)
  }

  // ------------------------------------------------------------------------------------
  // Threads
  // ------------------------------------------------------------------------------------

  datatype Target = Down(block: nat) | Up(input: nat)

  datatype Pc =
    | Top
    | ReadingInputs(ins: seq<InputView>)
    | ReadingOutputs(ins: seq<InputView>, outs: seq<OutputView>)
    | Working(mayConsume: seq<nat>, mayProduce: seq<nat>, touched: set<nat>, filled: set<nat>, newAlignment: int)
    | MarkingDone(k: nat, touched: set<nat>, filled: set<nat>)
    | Notifying(targets: seq<Target>, last: bool)
    | WaitIn(seen: seq<InputView>)
    | WaitOut(at: nat)
    | WaitIdle
    | Dead
    | Crashed

  datatype Thread = Thread(pc: Pc, inputChanged: bool, outputChanged: bool, al: Align)

  datatype Sys = Sys(threads: seq<Thread>, mem: Buffers)

  datatype Action =
    | Clear
    | ReadInput
    | ReadOutput
    | Consume(i: nat, n: nat)
    | Produce(o: nat, n: nat)
    | Return(quit: bool)
    | MarkDone
    | Notify
    | WakeIn
    | WakeOut
    | Message

  function NumIn(g: Graph, t: nat): nat requires t < |g.nodes| { |g.nodes[t].inputs| }
  function NumOut(g: Graph, t: nat): nat requires t < |g.nodes| { |g.nodes[t].readers| }
  function Exec(g: Graph, t: nat): Block requires t < |g.nodes| { g.nodes[t].exec }

  function UpTargets(n: nat): seq<Target> {
    seq(n, i requires 0 <= i < n => Up(i))
  }

  function DownOf(rs: seq<Port>): seq<Target> {
    seq(|rs|, j requires 0 <= j < |rs| => Down(rs[j].block))
  }

  function DownTargets(readers: seq<seq<Port>>): seq<Target> {
    if readers == [] then [] else DownOf(readers[0]) + DownTargets(readers[1..])
  }

  /** notify_neighbors: downstream first, then upstream. */
  function Neighbours(g: Graph, t: nat): seq<Target>
    requires t < |g.nodes|
  {
    DownTargets(g.nodes[t].readers) + UpTargets(NumIn(g, t))
  }

  /** Where a thread goes after the decision of its iteration. */
  function Started(ins: seq<InputView>, nouts: nat, o: Outcome): Pc {
    match o
    case CallWork(n, newAlignment) =>
      Working(seq(|ins|, i requires 0 <= i < |ins| => ins[i].avail), seq(nouts, k => if n < 0 then 0 else n), {},
              {}, newAlignment)
    case BlockedIn => WaitIn(ins)
    case BlockedOut => WaitIdle
    case Finished => MarkingDone(0, {}, {})
    case Throws => Crashed
  }

  // ------------------------------------------------------------------------------------
  // Steps
  // ------------------------------------------------------------------------------------

  ghost predicate SysOk(g: Graph, s: Sys) {
    GraphOk(g) && Shaped(g, s.mem) && |s.threads| == |g.nodes|
  }

  function WithPc(s: Sys, t: nat, pc: Pc): Sys
    requires t < |s.threads|
  {
    s.(threads := s.threads[t := s.threads[t].(pc := pc)])
  }

  ghost predicate DecisionOk(g: Graph, t: nat, outs: seq<OutputView>) {
    t < |g.nodes| && ViewsOk(outs) && WellFormed(Exec(g, t))
  }

  ghost function Decided(g: Graph, s: Sys, t: nat, ins: seq<InputView>, outs: seq<OutputView>): Sys
    requires SysOk(g, s) && DecisionOk(g, t, outs) && AlignOk(Exec(g, t), s.threads[t].al)
  {
    var (o, al) := Iterate(Exec(g, t), ins, outs, s.threads[t].al);
    s.(threads := s.threads[t := s.threads[t].(pc := Started(ins, |outs|, o), al := al)])
  }

  ghost predicate ClearStep(g: Graph, s: Sys, t: nat, s': Sys)
    requires SysOk(g, s) && t < |g.nodes|
  {
    && s.threads[t].pc.Top?
    && s' == s.(threads := s.threads[t := Thread(ReadingInputs([]), false, false, s.threads[t].al)])
  }

  ghost predicate ReadInputStep(g: Graph, s: Sys, t: nat, s': Sys)
    requires SysOk(g, s) && t < |g.nodes|
  {
    s.threads[t].pc.ReadingInputs? &&
    var ins := s.threads[t].pc.ins;
    if |ins| < NumIn(g, t) then s' == WithPc(s, t, ReadingInputs(ins + [InView(g, s.mem, t, |ins|)]))
    else if NumOut(g, t) > 0 then s' == WithPc(s, t, ReadingOutputs(ins, []))
    else AlignOk(Exec(g, t), s.threads[t].al) && s' == Decided(g, s, t, ins, [])
  }

  ghost predicate ReadOutputStep(g: Graph, s: Sys, t: nat, s': Sys)
    requires SysOk(g, s) && t < |g.nodes|
  {
    s.threads[t].pc.ReadingOutputs? &&
    var ins, outs := s.threads[t].pc.ins, s.threads[t].pc.outs;
    |outs| < NumOut(g, t) &&
    var v := OutView(g, s.mem, t, |outs|);
    match CheckOutput(Exec(g, t), v)
    case Full => s' == WithPc(s, t, WaitOut(|outs|))
    case DownstreamDone => s' == WithPc(s, t, MarkingDone(0, {}, {}))
    case TooSmall => s' == WithPc(s, t, Crashed)
    case Fits(_) =>
      if |outs| + 1 < NumOut(g, t) then s' == WithPc(s, t, ReadingOutputs(ins, outs + [v]))
      else
        && AlignOk(Exec(g, t), s.threads[t].al) && ViewsOk(outs + [v])
        && s' == Decided(g, s, t, ins, outs + [v])
  }

  ghost predicate ConsumeStep(g: Graph, s: Sys, t: nat, i: nat, n: nat, s': Sys)
    requires SysOk(g, s) && t < |g.nodes|
  {
    s.threads[t].pc.Working? && IsInput(g, t, i) &&
    var pc := s.threads[t].pc;
    && i < |pc.mayConsume| && 0 < n <= pc.mayConsume[i] && n <= Avail(g, s.mem, t, i)
    && s' == Sys(
      s.threads[t := s.threads[t].(pc :=
        pc.(mayConsume := pc.mayConsume[i := pc.mayConsume[i] - n], touched := pc.touched + {i}))],
      s.mem.(avail := s.mem.avail[t := s.mem.avail[t][i := s.mem.avail[t][i] - n]]))
  }

  function Fed(g: Graph, m: Buffers, w: nat, p: nat, n: nat, r: nat): seq<nat>
    requires Shaped(g, m) && r < |g.nodes|
  {
    seq(NumIn(g, r), i requires 0 <= i < NumIn(g, r) =>
      m.avail[r][i] + (if g.nodes[r].inputs[i] == Port(w, p) then n else 0))
  }

  ghost predicate ProduceStep(g: Graph, s: Sys, t: nat, o: nat, n: nat, s': Sys)
    requires SysOk(g, s) && t < |g.nodes|
  {
    s.threads[t].pc.Working? && IsOutput(g, t, o) &&
    var pc := s.threads[t].pc;
    && o < |pc.mayProduce| && 0 < n <= pc.mayProduce[o]
    && s' == Sys(
      s.threads[t :=
        s.threads[t].(pc := pc.(mayProduce := pc.mayProduce[o := pc.mayProduce[o] - n], filled := pc.filled + {o}))],
      s.mem.(avail := seq(|g.nodes|, r requires 0 <= r < |g.nodes| => Fed(g, s.mem, t, o, n, r))))
  }

  /** Work returns; `quit` when it returned WORK_DONE, or asked to finish and produced nothing. */
  ghost predicate ReturnStep(g: Graph, s: Sys, t: nat, quit: bool, s': Sys)
    requires SysOk(g, s) && t < |g.nodes|
  {
    s.threads[t].pc.Working? &&
    var pc := s.threads[t].pc;
    var al := AfterWork(s.threads[t].al, pc.newAlignment);
    var next :=
      if quit then MarkingDone(0, pc.touched, pc.filled)
      else if pc.filled != {} then Notifying(Neighbours(g, t), false)
      else if NumIn(g, t) == 0 then WaitIn([])
      else Notifying(UpTargets(NumIn(g, t)), false);
    s' == s.(threads := s.threads[t := s.threads[t].(pc := next, al := al)])
  }

  /** set_done marks the output buffers, then the buffers the inputs read. */
  ghost function Marked(g: Graph, t: nat, k: nat): Port
    requires GraphOk(g) && t < |g.nodes| && k < NumOut(g, t) + NumIn(g, t)
  {
    if k < NumOut(g, t) then Port(t, k) else Source(g, t, k - NumOut(g, t))
  }

  ghost predicate MarkDoneStep(g: Graph, s: Sys, t: nat, s': Sys)
    requires SysOk(g, s) && t < |g.nodes|
  {
    s.threads[t].pc.MarkingDone? &&
    var pc := s.threads[t].pc;
    if pc.k < NumOut(g, t) + NumIn(g, t) then
      var b := Marked(g, t, pc.k);
      && IsOutput(g, b.block, b.port)
      && s' == Sys(
        s.threads[t := s.threads[t].(pc := pc.(k := pc.k + 1))],
        s.mem.(done := s.mem.done[b.block := s.mem.done[b.block][b.port := true]]))
    else s' == WithPc(s, t, Notifying(Neighbours(g, t), true))
  }

  ghost predicate NotifyStep(g: Graph, s: Sys, t: nat, s': Sys)
    requires SysOk(g, s) && t < |g.nodes|
  {
    s.threads[t].pc.Notifying? &&
    var pc := s.threads[t].pc;
    if pc.targets == [] then s' == WithPc(s, t, if pc.last then Dead else Top)
    else
      var s1 := WithPc(s, t, Notifying(pc.targets[1..], pc.last));
      match pc.targets[0]
      case Down(r) =>
        r < |g.nodes| && s' == s1.(threads := s1.threads[r := s1.threads[r].(inputChanged := true)])
      case Up(i) =>
        IsInput(g, t, i) &&
        var w := Source(g, t, i).block;
        w < |g.nodes| && s' == s1.(threads := s1.threads[w := s1.threads[w].(outputChanged := true)])
  }

  /** The wait for input has a timeout, so it can always end. */
  ghost predicate WakeInStep(g: Graph, s: Sys, t: nat, s': Sys)
    requires SysOk(g, s) && t < |g.nodes|
  {
    s.threads[t].pc.WaitIn? && s' == WithPc(s, t, Top)
  }

  /** The wait for output space ends only once the flag is set. */
  ghost predicate WakeOutStep(g: Graph, s: Sys, t: nat, s': Sys)
    requires SysOk(g, s) && t < |g.nodes|
  {
    (s.threads[t].pc.WaitOut? || s.threads[t].pc.WaitIdle?) && s.threads[t].outputChanged
    && s' == WithPc(s, t, Top)
  }

  /** A message poster wakes the block for both reasons. */
  ghost predicate MessageStep(g: Graph, s: Sys, t: nat, s': Sys)
    requires SysOk(g, s) && t < |g.nodes|
  {
    s' == s.(threads := s.threads[t := s.threads[t].(inputChanged := true, outputChanged := true)])
  }

  ghost predicate Step(g: Graph, s: Sys, t: nat, a: Action, s': Sys) {
    SysOk(g, s) && t < |g.nodes| &&
    match a
    case Clear => ClearStep(g, s, t, s')
    case ReadInput => ReadInputStep(g, s, t, s')
    case ReadOutput => ReadOutputStep(g, s, t, s')
    case Consume(i, n) => ConsumeStep(g, s, t, i, n, s')
    case Produce(o, n) => ProduceStep(g, s, t, o, n, s')
    case Return(quit) => ReturnStep(g, s, t, quit, s')
    case MarkDone => MarkDoneStep(g, s, t, s')
    case Notify => NotifyStep(g, s, t, s')
    case WakeIn => WakeInStep(g, s, t, s')
    case WakeOut => WakeOutStep(g, s, t, s')
    case Message => MessageStep(g, s, t, s')
  }

  // ------------------------------------------------------------------------------------
  // The invariant
  // ------------------------------------------------------------------------------------

  ghost predicate InsOk(g: Graph, m: Buffers, t: nat, ins: seq<InputView>)
    requires GraphOk(g) && Shaped(g, m) && t < |g.nodes|
  {
    |ins| <= NumIn(g, t) && forall i :: 0 <= i < |ins| ==> SeenOfInput(g, m, t, i, ins[i])
  }

  /** What was seen of an input may have grown or ended since. */
  ghost predicate SeenOfInput(g: Graph, m: Buffers, t: nat, i: nat, v: InputView)
    requires GraphOk(g) && Shaped(g, m) && IsInput(g, t, i)
  {
    var src := Source(g, t, i);
    && v.avail <= Avail(g, m, t, i) && v.maxPossible + 1 == BufSize(g, src.block, src.port)
    && (v.done ==> IsDone(g, m, src.block, src.port))
  }

  ghost predicate OutsOk(g: Graph, m: Buffers, t: nat, outs: seq<OutputView>)
    requires GraphOk(g) && Shaped(g, m) && t < |g.nodes|
  {
    |outs| < NumOut(g, t) && ViewsOk(outs) &&
    forall o :: 0 <= o < |outs| ==>
      SeenOfOutput(g, m, t, o, outs[o]) && CheckOutput(Exec(g, t), outs[o]).Fits?
  }

  ghost predicate SeenOfOutput(g: Graph, m: Buffers, t: nat, o: nat, v: OutputView)
    requires GraphOk(g) && Shaped(g, m) && IsOutput(g, t, o)
  {
    v.space <= Space(g, m, t, o) && v.bufsize == BufSize(g, t, o) && (v.done ==> IsDone(g, m, t, o))
  }

  ghost predicate AllMarked(g: Graph, m: Buffers, t: nat, k: nat)
    requires GraphOk(g) && Shaped(g, m) && t < |g.nodes| && k <= NumOut(g, t) + NumIn(g, t)
  {
    forall j :: 0 <= j < k ==>
      var b := Marked(g, t, j); IsOutput(g, b.block, b.port) && IsDone(g, m, b.block, b.port)
  }

  ghost predicate PcOk(g: Graph, m: Buffers, t: nat, th: Thread)
    requires GraphOk(g) && Shaped(g, m) && t < |g.nodes|
  {
    && AlignOk(Exec(g, t), th.al)
    && match th.pc
       case ReadingInputs(ins) => InsOk(g, m, t, ins)
       case ReadingOutputs(ins, outs) => |ins| == NumIn(g, t) && InsOk(g, m, t, ins) && OutsOk(g, m, t, outs)
       case Working(c, p, _, _, newAlignment) =>
         && |c| == NumIn(g, t) && |p| == NumOut(g, t)
         && (forall i :: 0 <= i < |c| ==> c[i] <= Avail(g, m, t, i))
         && (forall o :: 0 <= o < |p| ==> p[o] <= Space(g, m, t, o))
         && AlignOk(Exec(g, t), AfterWork(th.al, newAlignment))
       case MarkingDone(k, _, _) => k <= NumOut(g, t) + NumIn(g, t) && AllMarked(g, m, t, k)
       case Notifying(_, last) => last ==> AllMarked(g, m, t, NumOut(g, t) + NumIn(g, t))
       case WaitIn(seen) => |seen| == NumIn(g, t)
       case WaitOut(at) => at < NumOut(g, t)
       case WaitIdle => NumIn(g, t) == 0 && Exec(g, t).maxNoutput < Exec(g, t).outputMultiple
       case Dead => AllMarked(g, m, t, NumOut(g, t) + NumIn(g, t))
       case Crashed => exists o :: 0 <= o < NumOut(g, t) && OutTooSmall(g, t, o)
       case _ => true
  }

  /** An output whose buffer can never hold the block's minimum. */
  ghost predicate OutTooSmall(g: Graph, t: nat, o: nat)
    requires GraphOk(g) && IsOutput(g, t, o)
  {
    RoundDown(BufSize(g, t, o) / 2, Exec(g, t).outputMultiple) < LeastOutput(Exec(g, t))
  }

  ghost predicate StillFull(g: Graph, m: Buffers, w: nat, p: nat)
    requires GraphOk(g) && Shaped(g, m)
  {
    IsOutput(g, w, p) && CheckOutput(Exec(g, w), OutView(g, m, w, p)) == Full
  }

  /**
   Reader (r, i) has moved its read pointer, or marked its input's buffer done, and has not yet
   told the writer.
   */
  ghost predicate Owes(g: Graph, th: Thread, r: nat, i: nat)
    requires r < |g.nodes|
  {
    match th.pc
    case Working(_, _, touched, _, _) => i in touched
    case MarkingDone(k, touched, _) => i in touched || NumOut(g, r) + i < k
    case Notifying(targets, _) => Up(i) in targets
    case _ => false
  }

  ghost predicate SomeoneOwes(g: Graph, s: Sys, w: nat, p: nat)
    requires SysOk(g, s)
  {
    exists r: nat, i: nat :: IsInput(g, r, i) && Source(g, r, i) == Port(w, p) && Owes(g, s.threads[r], r, i)
  }

  /** Asleep until some reader sets the flag. */
  predicate Sleeping(th: Thread) {
    (th.pc.WaitOut? || th.pc.WaitIdle?) && !th.outputChanged
  }

  /**
   If w waits for space on an output with its flag down, that output is still full and not done,
   or some reader of it is between moving its pointer (or setting done) and its notify.
   */
  ghost predicate Warranted(g: Graph, s: Sys, w: nat)
    requires SysOk(g, s) && w < |g.nodes|
  {
    s.threads[w].pc.WaitOut? && Sleeping(s.threads[w]) ==>
      StillFull(g, s.mem, w, s.threads[w].pc.at) || SomeoneOwes(g, s, w, s.threads[w].pc.at)
  }

  ghost predicate NoLostWakeup(g: Graph, s: Sys)
    requires SysOk(g, s)
  {
    forall w :: 0 <= w < |g.nodes| ==> Warranted(g, s, w)
  }

  ghost predicate Inv(g: Graph, s: Sys) {
    && SysOk(g, s) && BuffersOk(g, s.mem)
    && (forall t :: 0 <= t < |g.nodes| ==> PcOk(g, s.mem, t, s.threads[t]))
    && NoLostWakeup(g, s)
  }

  // ------------------------------------------------------------------------------------
  // What a step does to the other threads
  // ------------------------------------------------------------------------------------

  lemma {:induction false} MostDataMonotone(g: Graph, m: Buffers, m': Buffers, rs: seq<Port>)
    requires Shaped(g, m) && Shaped(g, m') && AllInputs(g, rs)
    requires forall x :: x in rs ==> Avail(g, m', x.block, x.port) <= Avail(g, m, x.block, x.port)
    ensures MostData(g, m', rs) <= MostData(g, m, rs)
  {
    if rs != [] {
      assert rs[0] in rs;
      MostDataMonotone(g, m, m', rs[1..]);
    }
  }

  lemma SpaceMonotone(g: Graph, m: Buffers, m': Buffers, w: nat, p: nat)
    requires GraphOk(g) && Shaped(g, m) && Shaped(g, m') && IsOutput(g, w, p)
    requires forall x :: x in Readers(g, w, p) ==> Avail(g, m', x.block, x.port) <= Avail(g, m, x.block, x.port)
    ensures Space(g, m, w, p) <= Space(g, m', w, p)
  {
    MostDataMonotone(g, m, m', Readers(g, w, p));
  }

  /** For block u: its inputs and its spaces did not shrink, and no done flag was taken back. */
  ghost predicate GrowsFor(g: Graph, m: Buffers, m': Buffers, u: nat)
    requires GraphOk(g) && Shaped(g, m) && Shaped(g, m')
  {
    && (forall i: nat :: IsInput(g, u, i) ==> Avail(g, m, u, i) <= Avail(g, m', u, i))
    && (forall o: nat :: IsOutput(g, u, o) ==> Space(g, m, u, o) <= Space(g, m', u, o))
    && (forall w: nat, p: nat :: IsOutput(g, w, p) && IsDone(g, m, w, p) ==> IsDone(g, m', w, p))
  }

  lemma PcStable(g: Graph, m: Buffers, m': Buffers, u: nat, th: Thread)
    requires GraphOk(g) && Shaped(g, m) && Shaped(g, m') && u < |g.nodes|
    requires PcOk(g, m, u, th) && GrowsFor(g, m, m', u)
    ensures PcOk(g, m', u, th)
  {
  }

  lemma ConsumedAvail(g: Graph, s: Sys, t: nat, i: nat, n: nat, s': Sys)
    requires SysOk(g, s) && t < |g.nodes| && ConsumeStep(g, s, t, i, n, s')
    ensures SysOk(g, s') && s'.mem.done == s.mem.done
    ensures forall r: nat, j: nat :: IsInput(g, r, j) ==>
              Avail(g, s'.mem, r, j) == Avail(g, s.mem, r, j) - (if r == t && j == i then n else 0)
  {
  }

  lemma ConsumeEffect(g: Graph, s: Sys, t: nat, i: nat, n: nat, s': Sys)
    requires SysOk(g, s) && t < |g.nodes| && ConsumeStep(g, s, t, i, n, s')
    ensures SysOk(g, s')
    ensures forall w: nat, p: nat :: IsOutput(g, w, p) ==> Space(g, s.mem, w, p) <= Space(g, s'.mem, w, p)
    ensures forall w: nat, p: nat :: IsOutput(g, w, p) && Source(g, t, i) != Port(w, p) ==>
              Space(g, s.mem, w, p) == Space(g, s'.mem, w, p)
  {
    ConsumedAvail(g, s, t, i, n, s');
    forall w: nat, p: nat | IsOutput(g, w, p)
      ensures Space(g, s.mem, w, p) <= Space(g, s'.mem, w, p)
      ensures Source(g, t, i) != Port(w, p) ==> Space(g, s.mem, w, p) == Space(g, s'.mem, w, p)
    {
      ConsumeSpace(g, s.mem, s'.mem, t, i, w, p);
    }
  }

  lemma ConsumeSpace(g: Graph, m: Buffers, m': Buffers, t: nat, i: nat, w: nat, p: nat)
    requires GraphOk(g) && Shaped(g, m) && Shaped(g, m') && IsInput(g, t, i) && IsOutput(g, w, p)
    requires forall r: nat, j: nat :: IsInput(g, r, j) ==> Avail(g, m', r, j) <= Avail(g, m, r, j)
    requires forall r: nat, j: nat :: IsInput(g, r, j) && !(r == t && j == i) ==>
               Avail(g, m', r, j) == Avail(g, m, r, j)
    ensures Space(g, m, w, p) <= Space(g, m', w, p)
    ensures Source(g, t, i) != Port(w, p) ==> Space(g, m, w, p) == Space(g, m', w, p)
  {
    SpaceMonotone(g, m, m', w, p);
    if Source(g, t, i) != Port(w, p) {
      SpaceMonotone(g, m', m, w, p);
    }
  }

  lemma ProducedAvail(g: Graph, s: Sys, t: nat, o: nat, n: nat, s': Sys)
    requires SysOk(g, s) && t < |g.nodes| && ProduceStep(g, s, t, o, n, s')
    ensures SysOk(g, s') && s'.mem.done == s.mem.done
    ensures forall r: nat, j: nat :: IsInput(g, r, j) ==>
              Avail(g, s'.mem, r, j) == Avail(g, s.mem, r, j) + (if Source(g, r, j) == Port(t, o) then n else 0)
  {
    forall r: nat, j: nat | IsInput(g, r, j)
      ensures Avail(g, s'.mem, r, j) == Avail(g, s.mem, r, j) + (if Source(g, r, j) == Port(t, o) then n else 0)
    {
      assert s'.mem.avail[r] == Fed(g, s.mem, t, o, n, r);
    }
  }

  lemma ProduceSpace(g: Graph, m: Buffers, m': Buffers, t: nat, o: nat, n: nat, w: nat, p: nat)
    requires GraphOk(g) && Shaped(g, m) && Shaped(g, m') && IsOutput(g, t, o) && IsOutput(g, w, p)
    requires n <= Space(g, m, t, o)
    requires forall r: nat, j: nat :: IsInput(g, r, j) ==>
               Avail(g, m', r, j) == Avail(g, m, r, j) + (if Source(g, r, j) == Port(t, o) then n else 0)
    ensures Port(w, p) != Port(t, o) ==> Space(g, m, w, p) == Space(g, m', w, p)
    ensures Port(w, p) == Port(t, o) ==> Space(g, m, w, p) - n <= Space(g, m', w, p)
  {
    if Port(w, p) != Port(t, o) {
      SpaceMonotone(g, m, m', w, p);
      SpaceMonotone(g, m', m, w, p);
    } else {
      MostDataBounds(g, m, Readers(g, t, o));
      MostDataBounds(g, m', Readers(g, t, o));
    }
  }

  lemma ProduceEffect(g: Graph, s: Sys, t: nat, o: nat, n: nat, s': Sys)
    requires SysOk(g, s) && t < |g.nodes| && ProduceStep(g, s, t, o, n, s')
    requires n <= Space(g, s.mem, t, o)
    ensures SysOk(g, s')
    ensures forall w: nat, p: nat :: IsOutput(g, w, p) && Port(w, p) != Port(t, o) ==>
              Space(g, s.mem, w, p) == Space(g, s'.mem, w, p)
    ensures Space(g, s.mem, t, o) - n <= Space(g, s'.mem, t, o)
  {
    ProducedAvail(g, s, t, o, n, s');
    ProduceSpace(g, s.mem, s'.mem, t, o, n, t, o);
    forall w: nat, p: nat | IsOutput(g, w, p) && Port(w, p) != Port(t, o)
      ensures Space(g, s.mem, w, p) == Space(g, s'.mem, w, p)
    {
      ProduceSpace(g, s.mem, s'.mem, t, o, n, w, p);
    }
  }

  lemma ProduceKeepsBuffers(g: Graph, s: Sys, t: nat, o: nat, n: nat, s': Sys)
    requires SysOk(g, s) && BuffersOk(g, s.mem) && t < |g.nodes| && ProduceStep(g, s, t, o, n, s')
    requires n <= Space(g, s.mem, t, o)
    ensures SysOk(g, s') && BuffersOk(g, s'.mem)
  {
    ProducedAvail(g, s, t, o, n, s');
    MostDataBounds(g, s.mem, Readers(g, t, o));
  }

  // ------------------------------------------------------------------------------------
  // Every step keeps every thread's bookkeeping
  // ------------------------------------------------------------------------------------

  ghost predicate PcsOk(g: Graph, s: Sys)
    requires SysOk(g, s)
  {
    forall t :: 0 <= t < |g.nodes| ==> PcOk(g, s.mem, t, s.threads[t])
  }

  ghost predicate OutsFit(g: Graph, m: Buffers, t: nat, outs: seq<OutputView>)
    requires GraphOk(g) && Shaped(g, m) && t < |g.nodes|
  {
    |outs| == NumOut(g, t) && ViewsOk(outs) &&
    forall o :: 0 <= o < |outs| ==>
      SeenOfOutput(g, m, t, o, outs[o]) && CheckOutput(Exec(g, t), outs[o]).Fits?
  }

  lemma DecidedOk(g: Graph, s: Sys, t: nat, ins: seq<InputView>, outs: seq<OutputView>)
    requires SysOk(g, s) && t < |g.nodes| && AlignOk(Exec(g, t), s.threads[t].al)
    requires |ins| == NumIn(g, t) && InsOk(g, s.mem, t, ins) && OutsFit(g, s.mem, t, outs)
    ensures PcOk(g, s.mem, t, Decided(g, s, t, ins, outs).threads[t])
  {
    var b, al := Exec(g, t), s.threads[t].al;
    IterateWithRoom(b, ins, outs, al);
    if Iterate(b, ins, outs, al).0.CallWork? {
      WorkIsSafe(b, ins, outs, al);
    }
    StartedOk(g, s.mem, t, ins, outs, Iterate(b, ins, outs, al).0, Decided(g, s, t, ins, outs).threads[t]);
  }

  /** The thread is sound in the place where an iteration that ended so leaves it. */
  lemma StartedOk(g: Graph, m: Buffers, t: nat, ins: seq<InputView>, outs: seq<OutputView>, o: Outcome, th: Thread)
    requires GraphOk(g) && Shaped(g, m) && t < |g.nodes| && |ins| == NumIn(g, t) && |outs| == NumOut(g, t)
    requires InsOk(g, m, t, ins) && OutsFit(g, m, t, outs) && th.pc == Started(ins, |outs|, o)
    requires AlignOk(Exec(g, t), th.al) && !o.Throws?
    requires o.BlockedOut? ==> ins == [] && Exec(g, t).maxNoutput < Exec(g, t).outputMultiple
    requires o.CallWork? ==> AlignOk(Exec(g, t), AfterWork(th.al, o.newAlignment))
    requires o.CallWork? ==> forall i :: 0 <= i < |outs| ==> o.n <= outs[i].space
    ensures PcOk(g, m, t, th)
  {
    if o.CallWork? {
      forall i | 0 <= i < |ins| ensures ins[i].avail <= Avail(g, m, t, i) {
        assert SeenOfInput(g, m, t, i, ins[i]);
      }
      forall i | 0 <= i < |outs| ensures outs[i].space <= Space(g, m, t, i) {
        assert SeenOfOutput(g, m, t, i, outs[i]);
      }
    }
  }

  lemma ClearKeepsPcs(g: Graph, s: Sys, t: nat, s': Sys)
    requires SysOk(g, s) && PcsOk(g, s) && t < |g.nodes| && ClearStep(g, s, t, s')
    ensures SysOk(g, s') && PcsOk(g, s')
  {
  }

  lemma ReadInputKeepsPcs(g: Graph, s: Sys, t: nat, s': Sys)
    requires SysOk(g, s) && PcsOk(g, s) && t < |g.nodes| && ReadInputStep(g, s, t, s')
    ensures SysOk(g, s') && PcsOk(g, s') && s'.mem == s.mem
  {
    var ins := s.threads[t].pc.ins;
    assert PcOk(g, s.mem, t, s.threads[t]);
    if |ins| == NumIn(g, t) && NumOut(g, t) == 0 {
      DecidedOk(g, s, t, ins, []);
    }
    assert PcOk(g, s'.mem, t, s'.threads[t]);
  }

  lemma ReadOutputKeepsPcs(g: Graph, s: Sys, t: nat, s': Sys)
    requires SysOk(g, s) && BuffersOk(g, s.mem) && PcsOk(g, s) && t < |g.nodes| && ReadOutputStep(g, s, t, s')
    ensures SysOk(g, s') && PcsOk(g, s') && s'.mem == s.mem
  {
    ReadOutputOwnPc(g, s, t, s');
    forall u | 0 <= u < |g.nodes| && u != t ensures PcOk(g, s'.mem, u, s'.threads[u]) {
      assert PcOk(g, s.mem, u, s.threads[u]) && s'.threads[u] == s.threads[u];
    }
  }

  lemma ReadOutputOwnPc(g: Graph, s: Sys, t: nat, s': Sys)
    requires SysOk(g, s) && BuffersOk(g, s.mem) && t < |g.nodes| && PcOk(g, s.mem, t, s.threads[t])
    requires ReadOutputStep(g, s, t, s')
    ensures SysOk(g, s') && s'.mem == s.mem && PcOk(g, s.mem, t, s'.threads[t])
    ensures forall u :: 0 <= u < |g.nodes| && u != t ==> s'.threads[u] == s.threads[u]
  {
    var ins, outs := s.threads[t].pc.ins, s.threads[t].pc.outs;
    var v := OutView(g, s.mem, t, |outs|);
    match CheckOutput(Exec(g, t), v) {
      case Full => assert s'.threads[t].pc == WaitOut(|outs|);
      case DownstreamDone => assert s'.threads[t].pc == MarkingDone(0, {}, {});
      case TooSmall =>
        assert s'.threads[t].pc == Crashed;
        assert OutTooSmall(g, t, |outs|);
      case Fits(_) => FittingOutputOk(g, s, t, s');
    }
  }

  /** An output that fits is noted, or is the last and decides. */
  lemma FittingOutputOk(g: Graph, s: Sys, t: nat, s': Sys)
    requires SysOk(g, s) && BuffersOk(g, s.mem) && t < |g.nodes| && PcOk(g, s.mem, t, s.threads[t])
    requires ReadOutputStep(g, s, t, s')
    requires CheckOutput(Exec(g, t), OutView(g, s.mem, t, |s.threads[t].pc.outs|)).Fits?
    ensures PcOk(g, s.mem, t, s'.threads[t])
  {
    var ins, outs := s.threads[t].pc.ins, s.threads[t].pc.outs;
    if |outs| + 1 == NumOut(g, t) {
      DecidedOk(g, s, t, ins, outs + [OutView(g, s.mem, t, |outs|)]);
    }
  }

  lemma ConsumeKeepsPcs(g: Graph, s: Sys, t: nat, i: nat, n: nat, s': Sys)
    requires SysOk(g, s) && PcsOk(g, s) && t < |g.nodes| && ConsumeStep(g, s, t, i, n, s')
    ensures SysOk(g, s') && PcsOk(g, s')
  {
    ConsumedAvail(g, s, t, i, n, s');
    ConsumeEffect(g, s, t, i, n, s');
    forall u | 0 <= u < |g.nodes| ensures PcOk(g, s'.mem, u, s'.threads[u]) {
      assert PcOk(g, s.mem, u, s.threads[u]);
      if u != t {
        PcStable(g, s.mem, s'.mem, u, s.threads[u]);
      }
    }
  }

  lemma ProduceKeepsPcs(g: Graph, s: Sys, t: nat, o: nat, n: nat, s': Sys)
    requires SysOk(g, s) && PcsOk(g, s) && t < |g.nodes| && ProduceStep(g, s, t, o, n, s')
    ensures SysOk(g, s') && PcsOk(g, s') && n <= Space(g, s.mem, t, o)
  {
    assert PcOk(g, s.mem, t, s.threads[t]);
    ProducedAvail(g, s, t, o, n, s');
    ProduceEffect(g, s, t, o, n, s');
    forall u | 0 <= u < |g.nodes| ensures PcOk(g, s'.mem, u, s'.threads[u]) {
      assert PcOk(g, s.mem, u, s.threads[u]);
      if u != t {
        PcStable(g, s.mem, s'.mem, u, s.threads[u]);
      }
    }
  }

  lemma ReturnKeepsPcs(g: Graph, s: Sys, t: nat, quit: bool, s': Sys)
    requires SysOk(g, s) && PcsOk(g, s) && t < |g.nodes| && ReturnStep(g, s, t, quit, s')
    ensures SysOk(g, s') && PcsOk(g, s') && s'.mem == s.mem
  {
    assert PcOk(g, s.mem, t, s.threads[t]);
    assert PcOk(g, s'.mem, t, s'.threads[t]);
  }

  lemma MarkEffect(g: Graph, s: Sys, t: nat, s': Sys)
    requires SysOk(g, s) && t < |g.nodes| && MarkDoneStep(g, s, t, s')
    requires s.threads[t].pc.k < NumOut(g, t) + NumIn(g, t)
    ensures SysOk(g, s') && s'.mem.avail == s.mem.avail
    ensures var b := Marked(g, t, s.threads[t].pc.k);
      forall w: nat, p: nat :: IsOutput(g, w, p) ==>
        IsDone(g, s'.mem, w, p) == (IsDone(g, s.mem, w, p) || b == Port(w, p))
    ensures forall w: nat, p: nat :: IsOutput(g, w, p) ==> Space(g, s'.mem, w, p) == Space(g, s.mem, w, p)
  {
    forall w: nat, p: nat | IsOutput(g, w, p) ensures Space(g, s'.mem, w, p) == Space(g, s.mem, w, p) {
      SpaceMonotone(g, s.mem, s'.mem, w, p);
      SpaceMonotone(g, s'.mem, s.mem, w, p);
    }
  }

  lemma MarkOwnPc(g: Graph, s: Sys, t: nat, s': Sys)
    requires SysOk(g, s) && t < |g.nodes| && PcOk(g, s.mem, t, s.threads[t]) && MarkDoneStep(g, s, t, s')
    requires s.threads[t].pc.k < NumOut(g, t) + NumIn(g, t)
    ensures SysOk(g, s') && PcOk(g, s'.mem, t, s'.threads[t])
  {
    MarkEffect(g, s, t, s');
    var k := s.threads[t].pc.k;
    forall j | 0 <= j < k + 1
      ensures var b := Marked(g, t, j); IsOutput(g, b.block, b.port) && IsDone(g, s'.mem, b.block, b.port)
    {
      if j < k {
        assert AllMarked(g, s.mem, t, k);
      }
    }
    assert AllMarked(g, s'.mem, t, k + 1);
  }

  lemma MarkKeepsPcs(g: Graph, s: Sys, t: nat, s': Sys)
    requires SysOk(g, s) && PcsOk(g, s) && t < |g.nodes| && MarkDoneStep(g, s, t, s')
    ensures SysOk(g, s') && PcsOk(g, s')
  {
    assert PcOk(g, s.mem, t, s.threads[t]);
    if s.threads[t].pc.k < NumOut(g, t) + NumIn(g, t) {
      MarkEffect(g, s, t, s');
      MarkOwnPc(g, s, t, s');
      forall u | 0 <= u < |g.nodes| && u != t ensures PcOk(g, s'.mem, u, s'.threads[u]) {
        assert PcOk(g, s.mem, u, s.threads[u]);
        assert GrowsFor(g, s.mem, s'.mem, u);
        PcStable(g, s.mem, s'.mem, u, s.threads[u]);
      }
    } else {
      assert PcOk(g, s'.mem, t, s'.threads[t]);
    }
  }

  /** One notification moves only the notifier on, and sets one flag of one thread. */
  lemma NotifyEffect(g: Graph, s: Sys, t: nat, s': Sys)
    requires SysOk(g, s) && t < |g.nodes| && NotifyStep(g, s, t, s')
    ensures SysOk(g, s') && s'.mem == s.mem && s'.threads[t].al == s.threads[t].al
    ensures forall u :: 0 <= u < |g.nodes| && u != t ==> SamePlace(s.threads[u], s'.threads[u])
    ensures var pc := s.threads[t].pc;
            s'.threads[t].pc == if pc.targets == [] then if pc.last then Dead else Top
                                else Notifying(pc.targets[1..], pc.last)
  {
  }

  predicate SamePlace(th: Thread, th': Thread) {
    th'.pc == th.pc && th'.al == th.al
  }

  lemma NotifyKeepsPcs(g: Graph, s: Sys, t: nat, s': Sys)
    requires SysOk(g, s) && PcsOk(g, s) && t < |g.nodes| && NotifyStep(g, s, t, s')
    ensures SysOk(g, s') && PcsOk(g, s') && s'.mem == s.mem
  {
    NotifyEffect(g, s, t, s');
    assert PcOk(g, s.mem, t, s.threads[t]);
    forall u | 0 <= u < |g.nodes| && u != t ensures PcOk(g, s'.mem, u, s'.threads[u]) {
      assert PcOk(g, s.mem, u, s.threads[u]);
      SamePlaceOk(g, s.mem, u, s.threads[u], s'.threads[u]);
    }
  }

  lemma SamePlaceOk(g: Graph, m: Buffers, u: nat, th: Thread, th': Thread)
    requires GraphOk(g) && Shaped(g, m) && u < |g.nodes| && PcOk(g, m, u, th) && SamePlace(th, th')
    ensures PcOk(g, m, u, th')
  {
  }

  // ------------------------------------------------------------------------------------
  // No wakeup is lost
  // ------------------------------------------------------------------------------------

  /** A debt carries over when the debtor's new state still owes it. */
  lemma DebtCarriesOver(g: Graph, s: Sys, s': Sys, t: nat, w: nat)
    requires SysOk(g, s) && SysOk(g, s') && t < |g.nodes| && w < |g.nodes| && t != w
    requires forall u :: 0 <= u < |g.nodes| && u != t ==> s'.threads[u].pc == s.threads[u].pc
    requires s.threads[w].outputChanged == s'.threads[w].outputChanged
    requires Warranted(g, s, w)
    requires forall i: nat :: IsInput(g, t, i) && Owes(g, s.threads[t], t, i) ==> Owes(g, s'.threads[t], t, i)
    requires s.threads[w].pc.WaitOut? && StillFull(g, s.mem, w, s.threads[w].pc.at) ==>
               StillFull(g, s'.mem, w, s.threads[w].pc.at) || SomeoneOwes(g, s', w, s.threads[w].pc.at)
    ensures Warranted(g, s', w)
  {
    if s.threads[w].pc.WaitOut? && Sleeping(s.threads[w]) && !StillFull(g, s.mem, w, s.threads[w].pc.at) {
      var p := s.threads[w].pc.at;
      var r: nat, i: nat :| IsInput(g, r, i) && Source(g, r, i) == Port(w, p) && Owes(g, s.threads[r], r, i);
      assert Owes(g, s'.threads[r], r, i);
      assert SomeoneOwes(g, s', w, p);
    }
  }

  lemma UpTargetsAll(n: nat, i: nat)
    requires i < n
    ensures Up(i) in UpTargets(n)
  {
    assert UpTargets(n)[i] == Up(i);
  }

  /** A step that touches only thread t, and leaves it without a debt to shed. */
  lemma QuietStepWarranted(g: Graph, s: Sys, t: nat, s': Sys, w: nat)
    requires SysOk(g, s) && SysOk(g, s') && t < |g.nodes| && w < |g.nodes| && t != w
    requires Warranted(g, s, w) && s'.mem == s.mem
    requires forall u :: 0 <= u < |g.nodes| && u != t ==> s'.threads[u] == s.threads[u]
    requires forall i: nat :: !Owes(g, s.threads[t], t, i)
    ensures Warranted(g, s', w)
  {
    DebtCarriesOver(g, s, s', t, w);
  }

  lemma ReadInputWarranted(g: Graph, s: Sys, t: nat, s': Sys, w: nat)
    requires SysOk(g, s) && t < |g.nodes| && ReadInputStep(g, s, t, s') && SysOk(g, s') && w < |g.nodes|
    requires Warranted(g, s, w)
    ensures Warranted(g, s', w)
  {
    if t != w {
      QuietStepWarranted(g, s, t, s', w);
    }
  }

  lemma ReadOutputWarranted(g: Graph, s: Sys, t: nat, s': Sys, w: nat)
    requires SysOk(g, s) && t < |g.nodes| && ReadOutputStep(g, s, t, s') && SysOk(g, s') && w < |g.nodes|
    requires Warranted(g, s, w)
    ensures Warranted(g, s', w)
  {
    if t != w {
      QuietStepWarranted(g, s, t, s', w);
    } else if s'.threads[t].pc.WaitOut? {
      assert StillFull(g, s'.mem, t, s'.threads[t].pc.at);
    }
  }

  lemma FlagStepWarranted(g: Graph, s: Sys, t: nat, a: Action, s': Sys, w: nat)
    requires SysOk(g, s) && Step(g, s, t, a, s') && SysOk(g, s') && w < |g.nodes|
    requires Warranted(g, s, w) && (a.Clear? || a.WakeIn? || a.WakeOut?)
    ensures Warranted(g, s', w)
  {
    if t != w {
      QuietStepWarranted(g, s, t, s', w);
    }
  }

  lemma MessageWarranted(g: Graph, s: Sys, t: nat, s': Sys, w: nat)
    requires SysOk(g, s) && t < |g.nodes| && MessageStep(g, s, t, s') && SysOk(g, s') && w < |g.nodes|
    requires Warranted(g, s, w)
    ensures Warranted(g, s', w)
  {
    if t != w {
      assert forall i: nat :: Owes(g, s.threads[t], t, i) ==> Owes(g, s'.threads[t], t, i);
      DebtCarriesOver(g, s, s', t, w);
    }
  }

  lemma ConsumeWarranted(g: Graph, s: Sys, t: nat, i: nat, n: nat, s': Sys, w: nat)
    requires Inv(g, s) && t < |g.nodes| && ConsumeStep(g, s, t, i, n, s') && SysOk(g, s') && w < |g.nodes|
    ensures Warranted(g, s', w)
  {
    assert Warranted(g, s, w);
    if t != w && s.threads[w].pc.WaitOut? {
      var p := s.threads[w].pc.at;
      ConsumeEffect(g, s, t, i, n, s');
      assert PcOk(g, s.mem, w, s.threads[w]);
      if Source(g, t, i) == Port(w, p) {
        assert Owes(g, s'.threads[t], t, i);
        assert SomeoneOwes(g, s', w, p);
      } else if StillFull(g, s.mem, w, p) {
        assert StillFull(g, s'.mem, w, p);
      }
      DebtCarriesOver(g, s, s', t, w);
    }
  }

  lemma ProduceWarranted(g: Graph, s: Sys, t: nat, o: nat, n: nat, s': Sys, w: nat)
    requires Inv(g, s) && t < |g.nodes| && ProduceStep(g, s, t, o, n, s') && SysOk(g, s') && w < |g.nodes|
    requires n <= Space(g, s.mem, t, o)
    ensures Warranted(g, s', w)
  {
    assert Warranted(g, s, w);
    if t != w && s.threads[w].pc.WaitOut? {
      ProduceEffect(g, s, t, o, n, s');
      assert PcOk(g, s.mem, w, s.threads[w]);
      DebtCarriesOver(g, s, s', t, w);
    }
  }

  lemma ReturnWarranted(g: Graph, s: Sys, t: nat, quit: bool, s': Sys, w: nat)
    requires Inv(g, s) && t < |g.nodes| && ReturnStep(g, s, t, quit, s') && SysOk(g, s') && w < |g.nodes|
    ensures Warranted(g, s', w)
  {
    assert Warranted(g, s, w);
    if t != w {
      forall i: nat | IsInput(g, t, i) && Owes(g, s.threads[t], t, i)
        ensures Owes(g, s'.threads[t], t, i)
      {
        UpTargetsAll(NumIn(g, t), i);
      }
      DebtCarriesOver(g, s, s', t, w);
    }
  }

  lemma MarkKeepsDebts(g: Graph, s: Sys, t: nat, s': Sys, i: nat)
    requires SysOk(g, s) && t < |g.nodes| && MarkDoneStep(g, s, t, s') && SysOk(g, s')
    requires IsInput(g, t, i) && Owes(g, s.threads[t], t, i)
    ensures Owes(g, s'.threads[t], t, i)
  {
    UpTargetsAll(NumIn(g, t), i);
  }

  /** A mark on another block's output is a debt to that block. */
  lemma MarkIsDebt(g: Graph, s: Sys, t: nat, s': Sys, w: nat, p: nat)
    requires SysOk(g, s) && t < |g.nodes| && MarkDoneStep(g, s, t, s') && SysOk(g, s') && w != t
    requires var k := s.threads[t].pc.k; k < NumOut(g, t) + NumIn(g, t) && Marked(g, t, k) == Port(w, p)
    ensures SomeoneOwes(g, s', w, p)
  {
    var i: nat := s.threads[t].pc.k - NumOut(g, t);
    assert IsInput(g, t, i) && Source(g, t, i) == Port(w, p) && Owes(g, s'.threads[t], t, i);
  }

  lemma MarkKeepsFull(g: Graph, s: Sys, t: nat, s': Sys, w: nat, p: nat)
    requires SysOk(g, s) && t < |g.nodes| && MarkDoneStep(g, s, t, s') && SysOk(g, s') && w != t
    requires StillFull(g, s.mem, w, p)
    ensures StillFull(g, s'.mem, w, p) || SomeoneOwes(g, s', w, p)
  {
    var k := s.threads[t].pc.k;
    if k < NumOut(g, t) + NumIn(g, t) {
      MarkEffect(g, s, t, s');
      if Marked(g, t, k) == Port(w, p) {
        MarkIsDebt(g, s, t, s', w, p);
      }
    }
  }

  lemma MarkWarranted(g: Graph, s: Sys, t: nat, s': Sys, w: nat)
    requires Inv(g, s) && t < |g.nodes| && MarkDoneStep(g, s, t, s') && SysOk(g, s') && w < |g.nodes|
    ensures Warranted(g, s', w)
  {
    assert Warranted(g, s, w);
    if t != w && s.threads[w].pc.WaitOut? {
      forall i: nat | IsInput(g, t, i) && Owes(g, s.threads[t], t, i)
        ensures Owes(g, s'.threads[t], t, i)
      {
        MarkKeepsDebts(g, s, t, s', i);
      }
      if StillFull(g, s.mem, w, s.threads[w].pc.at) {
        MarkKeepsFull(g, s, t, s', w, s.threads[w].pc.at);
      }
      MarkTouchesOne(g, s, t, s');
      DebtCarriesOver(g, s, s', t, w);
    }
  }

  lemma MarkTouchesOne(g: Graph, s: Sys, t: nat, s': Sys)
    requires SysOk(g, s) && t < |g.nodes| && MarkDoneStep(g, s, t, s')
    ensures SysOk(g, s') && forall u :: 0 <= u < |g.nodes| && u != t ==> s'.threads[u] == s.threads[u]
  {
  }

  /** The notifier's debt stays until it has set the flag of the block it owes. */
  lemma NotifyKeepsDebt(g: Graph, s: Sys, t: nat, s': Sys, i: nat)
    requires SysOk(g, s) && t < |g.nodes| && NotifyStep(g, s, t, s') && SysOk(g, s')
    requires IsInput(g, t, i) && Owes(g, s.threads[t], t, i)
    requires var w := Source(g, t, i).block; w != t && !s'.threads[w].outputChanged
    ensures Owes(g, s'.threads[t], t, i)
  {
    var targets := s.threads[t].pc.targets;
    assert targets[0] != Up(i);
    assert targets == [targets[0]] + targets[1..];
  }

  lemma NotifyWarranted(g: Graph, s: Sys, t: nat, s': Sys, w: nat)
    requires Inv(g, s) && t < |g.nodes| && NotifyStep(g, s, t, s') && SysOk(g, s') && w < |g.nodes|
    ensures Warranted(g, s', w)
  {
    assert Warranted(g, s, w);
    NotifyEffect(g, s, t, s');
    if t != w && s.threads[w].pc.WaitOut? && Sleeping(s'.threads[w]) {
      NotifyMutes(g, s, t, s', w);
      var p := s.threads[w].pc.at;
      if !StillFull(g, s.mem, w, p) {
        var r: nat, i: nat :| IsInput(g, r, i) && Source(g, r, i) == Port(w, p) && Owes(g, s.threads[r], r, i);
        if r == t {
          NotifyKeepsDebt(g, s, t, s', i);
        }
        assert Owes(g, s'.threads[r], r, i);
        assert SomeoneOwes(g, s', w, p);
      }
    }
  }

  /** A flag that is down was down before. */
  lemma NotifyMutes(g: Graph, s: Sys, t: nat, s': Sys, w: nat)
    requires SysOk(g, s) && t < |g.nodes| && NotifyStep(g, s, t, s') && SysOk(g, s') && w < |g.nodes|
    requires !s'.threads[w].outputChanged
    ensures !s.threads[w].outputChanged
  {
  }

  lemma StepKeepsPcs(g: Graph, s: Sys, t: nat, a: Action, s': Sys)
    requires SysOk(g, s) && BuffersOk(g, s.mem) && PcsOk(g, s) && Step(g, s, t, a, s')
    ensures SysOk(g, s') && PcsOk(g, s')
  {
    match a {
      case Clear => ClearKeepsPcs(g, s, t, s');
      case ReadInput => ReadInputKeepsPcs(g, s, t, s');
      case ReadOutput => ReadOutputKeepsPcs(g, s, t, s');
      case Consume(i, n) => ConsumeKeepsPcs(g, s, t, i, n, s');
      case Produce(o, n) => ProduceKeepsPcs(g, s, t, o, n, s');
      case Return(quit) => ReturnKeepsPcs(g, s, t, quit, s');
      case MarkDone => MarkKeepsPcs(g, s, t, s');
      case Notify => NotifyKeepsPcs(g, s, t, s');
      case WakeIn => FlagStepKeepsPcs(g, s, t, a, s');
      case WakeOut => FlagStepKeepsPcs(g, s, t, a, s');
      case Message => FlagStepKeepsPcs(g, s, t, a, s');
    }
  }

  lemma FlagStepKeepsPcs(g: Graph, s: Sys, t: nat, a: Action, s': Sys)
    requires SysOk(g, s) && PcsOk(g, s) && Step(g, s, t, a, s') && (a.WakeIn? || a.WakeOut? || a.Message?)
    ensures SysOk(g, s') && PcsOk(g, s')
  {
    assert PcOk(g, s.mem, t, s.threads[t]);
    assert PcOk(g, s'.mem, t, s'.threads[t]);
  }

  lemma StepKeepsBuffers(g: Graph, s: Sys, t: nat, a: Action, s': Sys)
    requires SysOk(g, s) && BuffersOk(g, s.mem) && PcsOk(g, s) && Step(g, s, t, a, s')
    ensures SysOk(g, s') && BuffersOk(g, s'.mem)
  {
    match a {
      case Consume(i, n) => ConsumedAvail(g, s, t, i, n, s');
      case Produce(o, n) =>
        ProduceKeepsPcs(g, s, t, o, n, s');
        ProduceKeepsBuffers(g, s, t, o, n, s');
      case _ =>
        StepKeepsPcs(g, s, t, a, s');
        assert s'.mem.avail == s.mem.avail;
    }
  }

  /** Every step of every thread keeps the invariant. */
  lemma StepKeepsInv(g: Graph, s: Sys, t: nat, a: Action, s': Sys)
    requires Inv(g, s) && Step(g, s, t, a, s')
    ensures Inv(g, s')
  {
    StepKeepsPcs(g, s, t, a, s');
    StepKeepsBuffers(g, s, t, a, s');
    StepKeepsWarrants(g, s, t, a, s');
  }

  lemma StepKeepsWarrants(g: Graph, s: Sys, t: nat, a: Action, s': Sys)
    requires Inv(g, s) && Step(g, s, t, a, s') && SysOk(g, s')
    ensures NoLostWakeup(g, s')
  {
    forall w | 0 <= w < |g.nodes| ensures Warranted(g, s', w) {
      StepWarranted(g, s, t, a, s', w);
    }
  }

  lemma StepWarranted(g: Graph, s: Sys, t: nat, a: Action, s': Sys, w: nat)
    requires Inv(g, s) && Step(g, s, t, a, s') && SysOk(g, s') && w < |g.nodes|
    ensures Warranted(g, s', w)
  {
    assert Warranted(g, s, w);
    match a {
      case Consume(i, n) => ConsumeWarranted(g, s, t, i, n, s', w);
      case Produce(o, n) => ProduceKeepsPcs(g, s, t, o, n, s'); ProduceWarranted(g, s, t, o, n, s', w);
      case Return(quit) => ReturnWarranted(g, s, t, quit, s', w);
      case MarkDone => MarkWarranted(g, s, t, s', w);
      case Notify => NotifyWarranted(g, s, t, s', w);
      case ReadInput => ReadInputWarranted(g, s, t, s', w);
      case ReadOutput => ReadOutputWarranted(g, s, t, s', w);
      case Message => MessageWarranted(g, s, t, s', w);
      case Clear => FlagStepWarranted(g, s, t, a, s', w);
      case WakeIn => FlagStepWarranted(g, s, t, a, s', w);
      case WakeOut => FlagStepWarranted(g, s, t, a, s', w);
    }
  }

  // ------------------------------------------------------------------------------------
  // Runs
  // ------------------------------------------------------------------------------------

  /** Readers start with their preload, which is below the buffer size; nothing is done. */
  ghost predicate Init(g: Graph, s: Sys) {
    && SysOk(g, s) && BuffersOk(g, s.mem)
    && (forall w: nat, p: nat :: IsOutput(g, w, p) ==> !IsDone(g, s.mem, w, p))
    && (forall t :: 0 <= t < |g.nodes| ==> s.threads[t] == Thread(Top, false, false, Align(0, false)))
  }

  datatype Move = Move(thread: nat, action: Action)

  ghost predicate IsRun(g: Graph, states: seq<Sys>, moves: seq<Move>) {
    && |states| == |moves| + 1 && Init(g, states[0])
    && forall k {:trigger moves[k]} :: 0 <= k < |moves| ==>
         Step(g, states[k], moves[k].thread, moves[k].action, states[k + 1])
  }

  lemma MoveKeepsInv(g: Graph, states: seq<Sys>, moves: seq<Move>, k: nat)
    requires IsRun(g, states, moves) && k < |moves| && Inv(g, states[k])
    ensures Inv(g, states[k + 1])
  {
    StepKeepsInv(g, states[k], moves[k].thread, moves[k].action, states[k + 1]);
  }

  /** In every interleaving, after any number of steps. */
  lemma {:induction false} RunKeepsInv(g: Graph, states: seq<Sys>, moves: seq<Move>, k: nat)
    requires IsRun(g, states, moves) && k < |states|
    ensures Inv(g, states[k])
    decreases k
  {
    if k > 0 {
      RunKeepsInv(g, states, moves, k - 1);
      MoveKeepsInv(g, states, moves, k - 1);
    } else {
      InitInv(g, states[0]);
    }
  }

  lemma RunOneMore(g: Graph, states: seq<Sys>, moves: seq<Move>, mv: Move, s: Sys)
    requires IsRun(g, states, moves) && Step(g, states[|moves|], mv.thread, mv.action, s)
    ensures IsRun(g, states + [s], moves + [mv])
  {
    var all, made := states + [s], moves + [mv];
    forall k | 0 <= k < |made| ensures Step(g, all[k], made[k].thread, made[k].action, all[k + 1]) {
      if k < |moves| {
        assert made[k] == moves[k] && all[k] == states[k] && all[k + 1] == states[k + 1];
      }
    }
  }

  lemma InitInv(g: Graph, s: Sys)
    requires Init(g, s)
    ensures Inv(g, s)
  {
    forall t | 0 <= t < |g.nodes| ensures PcOk(g, s.mem, t, s.threads[t]) {
      assert s.threads[t] == Thread(Top, false, false, Align(0, false));
    }
  }
}

/**
 Wiring a flat flowgraph: every used block gets a detail with one slot a port, a buffer in every
 output slot, and in every input slot a reader on the buffer of the port that feeds it.
 */
module Wiring {
  import opened Graphs
  import opened Flowgraph

  datatype Slot = Empty | Filled(buffer: Endpoint)

  /** Buffers are named by the output they belong to. */
  datatype Detail = Detail(inputs: seq<Slot>, outputs: seq<Slot>)

  /** The edges into a block, in edge order. */
  function UpstreamEdges(es: seq<Edge>, b: Block): (r: seq<Edge>)
    ensures forall e :: e in r <==> e in es && e.dst.block == b
  {
    if es == [] then []
    else
      var last := es[|es| - 1];
      assert es == es[..|es| - 1] + [last];
      UpstreamEdges(es[..|es| - 1], b) + (if last.dst.block == b then [last] else [])
  }

  lemma {:induction false} UpstreamDistinct(es: seq<Edge>, b: Block)
    requires EdgesOk(es)
    ensures EdgesOk(UpstreamEdges(es, b))
  {
    if es != [] {
      var t, last := es[..|es| - 1], es[|es| - 1];
      assert forall e :: e in t ==> e in es;
      UpstreamDistinct(t, b);
      var r := UpstreamEdges(t, b);
      forall k | 0 <= k < |r| ensures r[k].dst != last.dst {
        assert r[k] in t;
        var j :| 0 <= j < |t| && t[j] == r[k];
        assert es[j].dst != es[|es| - 1].dst;
      }
    }
  }

  /** What is true of a used block's detail once its outputs, and its inputs, are done. */
  ghost predicate OutputsDone(es: seq<Edge>, details: map<Block, Detail>, b: Block) {
    && b in details
    && |details[b].inputs| == |UsedPorts(es, b, true)| && |details[b].outputs| == |UsedPorts(es, b, false)|
    && forall i :: 0 <= i < |details[b].outputs| ==> details[b].outputs[i] == Filled(Endpoint(b, i))
  }

  ghost predicate AllSourcesDone(es: seq<Edge>, details: map<Block, Detail>) {
    forall e :: e in es ==> OutputsDone(es, details, e.src.block)
  }

  ghost predicate InputsDone(es: seq<Edge>, details: map<Block, Detail>, b: Block) {
    && b in details
    && |details[b].inputs| == |UsedPorts(es, b, true)|
    && forall i :: 0 <= i < |details[b].inputs| ==>
         details[b].inputs[i].Filled? && Edge(details[b].inputs[i].buffer, Endpoint(b, i)) in es
  }

  predicate InRange(port: int, slots: seq<Slot>) {
    0 <= port < |slots|
  }

  class FlatFlowgraph {
    const edges: seq<Edge>
    const blocks: seq<Block>
    var details: map<Block, Detail>
    /** d_readers of every buffer: the inputs that read it, in the order they joined. */
    var readers: map<Endpoint, seq<Endpoint>>
    /** Every call of set_input and set_output, in order. */
    ghost var inputLog: seq<Endpoint>
    ghost var outputLog: seq<Endpoint>

    constructor (edges: seq<Edge>, blocks: seq<Block>)
      ensures this.edges == edges && this.blocks == blocks
      ensures details == map[] && readers == map[] && inputLog == [] && outputLog == []
    {
      this.edges, this.blocks := edges, blocks;
      details, readers := map[], map[];
      inputLog, outputLog := [], [];
    }

    /** Fills every output slot of one block once, unless a buffer cannot be allocated. */
    method AllocateBlockDetail(b: Block, canAllocate: Endpoint -> bool) returns (ok: bool)
      requires b !in details
      modifies this`details, this`outputLog
      ensures details.Keys == old(details.Keys) + (if ok then {b} else {})
      ensures forall c :: c in old(details) ==> details[c] == old(details)[c]
      ensures ok <==> forall i :: 0 <= i < |UsedPorts(edges, b, false)| ==> canAllocate(Endpoint(b, i))
      ensures ok ==> OutputsDone(edges, details, b)
      ensures ok ==> |outputLog| == |old(outputLog)| + |UsedPorts(edges, b, false)|
      ensures ok ==> forall k :: 0 <= k < |outputLog| ==>
                outputLog[k] == if k < |old(outputLog)| then old(outputLog)[k] else Endpoint(b, k - |old(outputLog)|)
    {
      var ninputs, noutputs := |UsedPorts(edges, b, true)|, |UsedPorts(edges, b, false)|;
      var d := Detail(seq(ninputs, _ => Empty), seq(noutputs, _ => Empty));
      for i := 0 to noutputs
        invariant details == old(details) && |d.inputs| == ninputs && |d.outputs| == noutputs
        invariant forall j :: 0 <= j < i ==> d.outputs[j] == Filled(Endpoint(b, j)) && canAllocate(Endpoint(b, j))
        invariant |outputLog| == |old(outputLog)| + i
        invariant forall k :: 0 <= k < |outputLog| ==>
          outputLog[k] == if k < |old(outputLog)| then old(outputLog)[k] else Endpoint(b, k - |old(outputLog)|)
      {
        if !canAllocate(Endpoint(b, i)) {
          return false;
        }
        d := d.(outputs := d.outputs[i := Filled(Endpoint(b, i))]);
        outputLog := outputLog + [Endpoint(b, i)];
      }
      details := details[b := d];
      ok := true;
    }

    /**
     Puts a reader on the buffer of e's source and into the slot of e's destination, whatever was in it,
     if both ports are in range; otherwise nothing changes.
     */
    method SetInput(e: Edge) returns (ok: bool)
      requires e.src.block in details && e.dst.block in details
      requires InRange(e.src.port, details[e.src.block].outputs) ==> details[e.src.block].outputs[e.src.port].Filled?
      modifies this`details, this`readers, this`inputLog
      ensures ok <==> InRange(e.src.port, old(details)[e.src.block].outputs) &&
                      InRange(e.dst.port, old(details)[e.dst.block].inputs)
      ensures !ok ==> details == old(details) && readers == old(readers) && inputLog == old(inputLog)
      ensures ok ==> var buffer, d := old(details)[e.src.block].outputs[e.src.port].buffer, old(details)[e.dst.block];
                && readers == old(readers)[buffer := ReadersIn(old(readers), buffer) + [e.dst]]
                && inputLog == old(inputLog) + [e.dst]
                && details == old(details)[e.dst.block := d.(inputs := d.inputs[e.dst.port := Filled(buffer)])]
    {
      var outputs, d := details[e.src.block].outputs, details[e.dst.block];
      if !InRange(e.src.port, outputs) || !InRange(e.dst.port, d.inputs) {
        return false;
      }
      var buffer := outputs[e.src.port].buffer;
      readers := readers[buffer := ReadersIn(readers, buffer) + [e.dst]];
      inputLog := inputLog + [e.dst];
      details := details[e.dst.block := d.(inputs := d.inputs[e.dst.port := Filled(buffer)])];
      ok := true;
    }

    /** Fills every input slot of one block once; a slot or buffer out of range throws. */
    method ConnectBlockInputs(b: Block) returns (ok: bool)
      requires EdgesOk(edges) && b in details && |details[b].inputs| == |UsedPorts(edges, b, true)|
      requires AllSourcesDone(edges, details)
      requires MatchLog(edges, readers, inputLog) && forall x :: x in inputLog ==> x.block != b
      modifies this`details, this`readers, this`inputLog
      ensures Filling(edges, old(details), details, b, [])
      ensures IsRange(UsedPorts(edges, b, true)) && SourcesInRange(edges) ==> ok
      ensures ok ==> MatchLog(edges, readers, inputLog) && LoggedBlock(edges, old(inputLog), inputLog, b)
      ensures ok && IsRange(UsedPorts(edges, b, true)) ==> InputsDone(edges, details, b)
    {
      var inEdges := UpstreamEdges(edges, b);
      UpstreamDistinct(edges, b);
      ghost var was, logged := details, inputLog;
      ok := ConnectEdges(b, inEdges);
      if ok {
        BlockConnected(edges, was, details, readers, logged, inputLog, b, inEdges);
      }
    }

    /** The loop over the edges into a block. */
    method ConnectEdges(b: Block, inEdges: seq<Edge>) returns (ok: bool)
      requires EdgesOk(edges) && EdgesOk(inEdges) && forall e :: e in inEdges <==> e in edges && e.dst.block == b
      requires b in details && |details[b].inputs| == |UsedPorts(edges, b, true)|
      requires AllSourcesDone(edges, details)
      requires MatchLog(edges, readers, inputLog) && forall x :: x in inputLog ==> x.block != b
      modifies this`details, this`readers, this`inputLog
      ensures Filling(edges, old(details), details, b, [])
      ensures IsRange(UsedPorts(edges, b, true)) && SourcesInRange(edges) ==> ok
      ensures ok ==> UnderWay(edges, old(details), details, readers, old(inputLog), inputLog, b, inEdges)
    {
      ghost var was, logged := details, inputLog;
      NothingConnected(edges, details, readers, inputLog, b);
      for k := 0 to |inEdges|
        invariant UnderWay(edges, was, details, readers, logged, inputLog, b, inEdges[..k])
      {
        var connected := ConnectEdge(b, was, logged, inEdges, k);
        if !connected {
          return false;
        }
      }
      assert inEdges[..|inEdges|] == inEdges;
      ok := true;
    }

    /** One turn of the loop over the edges into a block. */
    method ConnectEdge(b: Block, ghost was: map<Block, Detail>, ghost logged: seq<Endpoint>, inEdges: seq<Edge>, k: nat)
      returns (ok: bool)
      requires EdgesOk(edges) && EdgesOk(inEdges) && k < |inEdges|
      requires forall e :: e in inEdges <==> e in edges && e.dst.block == b
      requires UnderWay(edges, was, details, readers, logged, inputLog, b, inEdges[..k])
      requires b in was && |was[b].inputs| == |UsedPorts(edges, b, true)|
      requires AllSourcesDone(edges, was)
      modifies this`details, this`readers, this`inputLog
      ensures IsRange(UsedPorts(edges, b, true)) && SourcesInRange(edges) ==> ok
      ensures ok ==> UnderWay(edges, was, details, readers, logged, inputLog, b, inEdges[..k + 1])
      ensures !ok ==> Filling(edges, was, details, b, [])
    {
      var e := inEdges[k];
      EdgeIsFree(edges, was, details, readers, logged, inputLog, b, inEdges, k);
      ghost var before, log, had := details, inputLog, readers;
      ok := SetInput(e);
      if ok {
        MatchOne(edges, had, log, e);
        EdgeConnected(edges, was, before, details, logged, log, b, inEdges, k);
      }
    }

    method AllocateAll(canAllocate: Endpoint -> bool) returns (ok: bool)
      requires NoDup(blocks) && details == map[] && outputLog == []
      modifies this`details, this`outputLog
      ensures ok <==>
              forall b, i :: b in blocks && 0 <= i < |UsedPorts(edges, b, false)| ==> canAllocate(Endpoint(b, i))
      ensures ok ==> details.Keys == ToSet(blocks) && forall b :: b in blocks ==> OutputsDone(edges, details, b)
      ensures ok ==> LogIsPorts(edges, outputLog, blocks)
    {
      for k := 0 to |blocks|
        invariant Allocated(edges, details, outputLog, blocks[..k])
        invariant forall b :: b in blocks[..k] ==> CanAllocateAll(edges, b, canAllocate)
      {
        assert blocks[k] !in blocks[..k] && blocks[k] in blocks;
        assert blocks[..k + 1] == blocks[..k] + [blocks[k]];
        ghost var was, before := details, outputLog;
        var enough := AllocateBlockDetail(blocks[k], canAllocate);
        if !enough {
          assert !CanAllocateAll(edges, blocks[k], canAllocate);
          return false;
        }
        AllocatedMore(edges, was, details, before, outputLog, blocks[..k], blocks[k]);
      }
      assert blocks[..|blocks|] == blocks;
      ok := true;
    }

    method ConnectNext(ghost k: nat, b: Block)
      requires EdgesOk(edges) && NoDup(blocks) && PortsValid(edges, blocks)
      requires forall e :: e in edges ==> e.src.block in blocks
      requires k < |blocks| && b == blocks[k] && Connecting(edges, details, readers, inputLog, blocks, blocks[..k])
      modifies this`details, this`readers, this`inputLog
      ensures Connecting(edges, details, readers, inputLog, blocks, blocks[..k] + [b])
    {
      ghost var was, logged, before := details, inputLog, blocks[..k];
      SourcesDone(edges, details, blocks);
      assert b in blocks && OutputsDone(edges, details, b);
      var connected := ConnectBlockInputs(b);
      FillingKeepsAll(edges, was, details, b, blocks, before);
      LogOneBlock(edges, logged, inputLog, before, b);
    }

    method ConnectAll()
      requires EdgesOk(edges) && NoDup(blocks) && PortsValid(edges, blocks)
      requires forall b :: Used(edges, [], b) ==> b in blocks
      requires Connecting(edges, details, readers, inputLog, blocks, [])
      modifies this`details, this`readers, this`inputLog
      ensures Connecting(edges, details, readers, inputLog, blocks, blocks)
    {
      UsedEnds(edges, blocks);
      for k := 0 to |blocks|
        invariant Connecting(edges, details, readers, inputLog, blocks, blocks[..k])
      {
        ConnectNext(k, blocks[k]);
        assert blocks[..k + 1] == blocks[..k] + [blocks[k]];
      }
      assert blocks[..|blocks|] == blocks;
    }

    /**
     After validation: every slot is filled by exactly one call, inputs from the buffer of the port
     that feeds them, and the readers of a buffer are exactly the inputs its port feeds.
     */
    method SetupConnections(canAllocate: Endpoint -> bool) returns (ok: bool)
      requires EdgesOk(edges) && NoDup(blocks) && (forall b :: Used(edges, [], b) ==> b in blocks)
      requires PortsValid(edges, blocks)
      requires details == map[] && readers == map[] && inputLog == [] && outputLog == []
      modifies this
      ensures ok <==>
              forall b, i :: b in blocks && 0 <= i < |UsedPorts(edges, b, false)| ==> canAllocate(Endpoint(b, i))
      ensures ok ==> forall b :: b in blocks ==> OutputsDone(edges, details, b) && InputsDone(edges, details, b)
      ensures ok ==> LogIsPorts(edges, outputLog, blocks)
      ensures ok ==> NoDup(inputLog) && forall x :: x in inputLog <==> DstUsed(edges, x)
      ensures ok ==> forall c ::
                NoDup(ReadersIn(readers, c)) && forall x :: x in ReadersIn(readers, c) <==> Edge(c, x) in edges
    {
      ok := AllocateAll(canAllocate);
      if ok {
        ConnectAll();
        UsedEnds(edges, blocks);
        ReadersAreFed(edges, readers, inputLog);
      }
    }
  }

  function ReadersIn(readers: map<Endpoint, seq<Endpoint>>, buffer: Endpoint): seq<Endpoint> {
    if buffer in readers then readers[buffer] else []
  }

  /** The readers of every buffer are the logged inputs that it feeds, each once. */
  ghost predicate MatchLog(es: seq<Edge>, readers: map<Endpoint, seq<Endpoint>>, log: seq<Endpoint>) {
    NoDup(log) && forall c :: ReaderListOk(es, log, c, ReadersIn(readers, c))
  }

  lemma MatchOne(es: seq<Edge>, readers: map<Endpoint, seq<Endpoint>>, log: seq<Endpoint>, e: Edge)
    requires EdgesOk(es) && e in es && e.dst !in log && MatchLog(es, readers, log)
    ensures MatchLog(es, readers[e.src := ReadersIn(readers, e.src) + [e.dst]], log + [e.dst])
  {
    var readers' := readers[e.src := ReadersIn(readers, e.src) + [e.dst]];
    assert ReaderListOk(es, log, e.src, ReadersIn(readers, e.src));
    LogOne(es, log, e, ReadersIn(readers, e.src));
    forall c ensures ReaderListOk(es, log + [e.dst], c, ReadersIn(readers', c)) {
      assert ReaderListOk(es, log, c, ReadersIn(readers, c));
      if c != e.src {
        OtherBuffer(es, log, e, c, ReadersIn(readers, c));
      }
    }
  }

  lemma ReadersAreFed(es: seq<Edge>, readers: map<Endpoint, seq<Endpoint>>, log: seq<Endpoint>)
    requires MatchLog(es, readers, log) && forall x :: x in log <==> DstUsed(es, x)
    ensures forall c :: NoDup(ReadersIn(readers, c)) && forall x :: x in ReadersIn(readers, c) <==> Edge(c, x) in es
  {
    forall c ensures NoDup(ReadersIn(readers, c)) && forall x :: x in ReadersIn(readers, c) <==> Edge(c, x) in es {
      assert ReaderListOk(es, log, c, ReadersIn(readers, c));
      forall x | Edge(c, x) in es ensures x in log {
        assert Edge(c, x).dst == x;
      }
    }
  }

  /** The logged calls of set_output: one for each output port of each block. */
  ghost predicate LogIsPorts(es: seq<Edge>, log: seq<Endpoint>, blocks: seq<Block>) {
    NoDup(log) && forall x :: x in log <==> x.block in blocks && 0 <= x.port < |UsedPorts(es, x.block, false)|
  }

  ghost predicate LogIsInputs(es: seq<Edge>, log: seq<Endpoint>, blocks: seq<Block>) {
    forall x :: x in log <==> x.block in blocks && DstUsed(es, x)
  }

  ghost predicate PortsValid(es: seq<Edge>, blocks: seq<Block>) {
    forall b :: b in blocks ==> IsRange(UsedPorts(es, b, true)) && IsRange(UsedPorts(es, b, false))
  }

  /** All outputs are done, and the inputs of the blocks in `connected` are too. */
  ghost predicate Connecting(es: seq<Edge>, details: map<Block, Detail>, readers: map<Endpoint, seq<Endpoint>>,
                             log: seq<Endpoint>, blocks: seq<Block>, connected: seq<Block>) {
    && MatchLog(es, readers, log) && LogIsInputs(es, log, connected)
    && (forall b :: b in blocks ==> OutputsDone(es, details, b))
    && (forall b :: b in connected ==> InputsDone(es, details, b))
  }

  lemma UsedEnds(es: seq<Edge>, blocks: seq<Block>)
    requires forall b :: Used(es, [], b) ==> b in blocks
    ensures forall e :: e in es ==> e.src.block in blocks && e.dst.block in blocks
  {
    forall e | e in es ensures e.src.block in blocks && e.dst.block in blocks {
      assert Used(es, [], e.src.block) && Used(es, [], e.dst.block);
    }
  }

  lemma SourcesDone(es: seq<Edge>, details: map<Block, Detail>, blocks: seq<Block>)
    requires forall e :: e in es ==> e.src.block in blocks
    requires PortsValid(es, blocks) && forall c :: c in blocks ==> OutputsDone(es, details, c)
    ensures SourcesInRange(es) && AllSourcesDone(es, details)
  {
  }

  lemma LogOneBlock(es: seq<Edge>, was: seq<Endpoint>, now: seq<Endpoint>, before: seq<Block>, b: Block)
    requires LogIsInputs(es, was, before) && LoggedBlock(es, was, now, b)
    ensures LogIsInputs(es, now, before + [b])
  {
  }

  lemma FillingKeepsAll(es: seq<Edge>, was: map<Block, Detail>, now: map<Block, Detail>, b: Block,
                        blocks: seq<Block>, before: seq<Block>)
    requires Filling(es, was, now, b, []) && InputsDone(es, now, b) && b !in before
    requires forall c :: c in blocks ==> OutputsDone(es, was, c)
    requires forall c :: c in before ==> InputsDone(es, was, c)
    ensures forall c :: c in blocks ==> OutputsDone(es, now, c)
    ensures forall c :: c in before + [b] ==> InputsDone(es, now, c)
  {
    forall c | c in blocks ensures OutputsDone(es, now, c) {
      FillingKeepsOutputs(es, was, now, b, [], c);
    }
  }

  ghost predicate ReaderListOk(es: seq<Edge>, log: seq<Endpoint>, buffer: Endpoint, rs: seq<Endpoint>) {
    NoDup(rs) && forall x :: x in rs <==> x in log && Edge(buffer, x) in es
  }

  ghost predicate SourcesInRange(es: seq<Edge>) {
    forall e :: e in es ==> IsRange(UsedPorts(es, e.src.block, false))
  }

  /** Only inputs of b changed, and the slots of the edges done so far are filled. */
  ghost predicate Filling(es: seq<Edge>, was: map<Block, Detail>, now: map<Block, Detail>, b: Block,
                          filled: seq<Edge>)
  {
    && was.Keys == now.Keys && b in now
    && (forall c :: c in now ==> now[c].outputs == was[c].outputs && |now[c].inputs| == |was[c].inputs|)
    && (forall c :: c in now && c != b ==> now[c] == was[c])
    && (forall e :: e in filled ==>
          0 <= e.dst.port < |now[b].inputs| && now[b].inputs[e.dst.port] == Filled(e.src))
  }

  ghost predicate LoggedEdges(was: seq<Endpoint>, now: seq<Endpoint>, filled: seq<Edge>) {
    forall x :: x in now <==> x in was || exists e :: e in filled && e.dst == x
  }

  ghost predicate LoggedBlock(es: seq<Edge>, was: seq<Endpoint>, now: seq<Endpoint>, b: Block) {
    forall x :: x in now <==> x in was || (x.block == b && DstUsed(es, x))
  }

  /** The edges in `filled` are connected: their slots are filled, logged, and read by the right readers. */
  ghost predicate UnderWay(es: seq<Edge>, was: map<Block, Detail>, now: map<Block, Detail>,
                           readers: map<Endpoint, seq<Endpoint>>, logged: seq<Endpoint>, log: seq<Endpoint>,
                           b: Block, filled: seq<Edge>)
  {
    && Filling(es, was, now, b, filled) && MatchLog(es, readers, log) && LoggedEdges(logged, log, filled)
    && forall x :: x in logged ==> x.block != b
  }

  lemma NothingConnected(es: seq<Edge>, now: map<Block, Detail>, readers: map<Endpoint, seq<Endpoint>>,
                         log: seq<Endpoint>, b: Block)
    requires b in now && MatchLog(es, readers, log) && forall x :: x in log ==> x.block != b
    ensures UnderWay(es, now, now, readers, log, log, b, [])
  {
  }

  lemma EarlierEdges(inEdges: seq<Edge>, k: nat, b: Block)
    requires k < |inEdges| && EdgesOk(inEdges) && forall e :: e in inEdges ==> e.dst.block == b
    ensures inEdges[k] in inEdges && forall f :: f in inEdges[..k] ==> f.dst.block == b && f.dst != inEdges[k].dst
  {
  }

  lemma NotYetLogged(logged: seq<Endpoint>, log: seq<Endpoint>, filled: seq<Edge>, e: Edge)
    requires LoggedEdges(logged, log, filled) && forall x :: x in logged ==> x.block != e.dst.block
    requires forall f :: f in filled ==> f.dst != e.dst
    ensures e.dst !in log
  {
  }

  /** The next edge's slot is not filled yet, and both its ends are there. */
  lemma EdgeIsFree(es: seq<Edge>, was: map<Block, Detail>, now: map<Block, Detail>,
                   readers: map<Endpoint, seq<Endpoint>>, logged: seq<Endpoint>, log: seq<Endpoint>,
                   b: Block, inEdges: seq<Edge>, k: nat)
    requires EdgesOk(es) && EdgesOk(inEdges) && k < |inEdges|
    requires forall e :: e in inEdges <==> e in es && e.dst.block == b
    requires UnderWay(es, was, now, readers, logged, log, b, inEdges[..k]) && AllSourcesDone(es, was) && b in was
    ensures var e := inEdges[k];
      && e in es && e.dst.block == b && e.dst !in log && OutputsDone(es, now, e.src.block)
      && (IsRange(UsedPorts(es, e.src.block, false)) ==> 0 <= e.src.port < |UsedPorts(es, e.src.block, false)|)
      && (IsRange(UsedPorts(es, b, true)) ==> 0 <= e.dst.port < |UsedPorts(es, b, true)|)
  {
    var e := inEdges[k];
    EarlierEdges(inEdges, k, b);
    SlotsInRange(es, e);
    assert OutputsDone(es, was, e.src.block);
    FillingKeepsOutputs(es, was, now, b, inEdges[..k], e.src.block);
    NotYetLogged(logged, log, inEdges[..k], e);
  }

  lemma EdgeConnected(es: seq<Edge>, was: map<Block, Detail>, before: map<Block, Detail>, now: map<Block, Detail>,
                      logged: seq<Endpoint>, log: seq<Endpoint>, b: Block, inEdges: seq<Edge>, k: nat)
    requires EdgesOk(inEdges) && k < |inEdges| && forall e :: e in inEdges ==> e.dst.block == b
    requires Filling(es, was, before, b, inEdges[..k]) && LoggedEdges(logged, log, inEdges[..k])
    requires 0 <= inEdges[k].dst.port < |before[b].inputs|
    requires now == before[b := before[b].(inputs :=
                      before[b].inputs[inEdges[k].dst.port := Filled(inEdges[k].src)])]
    ensures Filling(es, was, now, b, inEdges[..k + 1])
    ensures LoggedEdges(logged, log + [inEdges[k].dst], inEdges[..k + 1])
  {
    var e := inEdges[k];
    EarlierEdges(inEdges, k, b);
    FillOne(es, was, before, now, b, inEdges[..k], e);
    LogEdge(logged, log, inEdges[..k], e);
    assert inEdges[..k + 1] == inEdges[..k] + [e];
  }

  lemma BlockConnected(es: seq<Edge>, was: map<Block, Detail>, now: map<Block, Detail>,
                       readers: map<Endpoint, seq<Endpoint>>, logged: seq<Endpoint>, log: seq<Endpoint>,
                       b: Block, inEdges: seq<Edge>)
    requires UnderWay(es, was, now, readers, logged, log, b, inEdges) &&
             (forall e :: e in inEdges <==> e in es && e.dst.block == b)
    requires |now[b].inputs| == |UsedPorts(es, b, true)|
    ensures LoggedBlock(es, logged, log, b) && (IsRange(UsedPorts(es, b, true)) ==> InputsDone(es, now, b))
  {
    if IsRange(UsedPorts(es, b, true)) {
      AllSlotsFilled(es, now, b, inEdges);
    }
    forall x ensures x in log <==> x in logged || (x.block == b && DstUsed(es, x)) {
      if x.block == b && DstUsed(es, x) {
        var e :| e in es && e.dst == x;
        assert e in inEdges;
      }
    }
  }

  lemma LogEdge(logged: seq<Endpoint>, log: seq<Endpoint>, filled: seq<Edge>, e: Edge)
    requires LoggedEdges(logged, log, filled)
    ensures LoggedEdges(logged, log + [e.dst], filled + [e])
  {
    forall x ensures x in log + [e.dst] <==> x in logged || exists f :: f in filled + [e] && f.dst == x {
      if x in log && x !in logged {
        var f :| f in filled && f.dst == x;
        assert f in filled + [e];
      } else if x == e.dst {
        assert e in filled + [e];
      }
    }
  }

  ghost predicate CanAllocateAll(es: seq<Edge>, b: Block, canAllocate: Endpoint -> bool) {
    forall i :: 0 <= i < |UsedPorts(es, b, false)| ==> canAllocate(Endpoint(b, i))
  }

  /** Exactly the blocks of `done` have details, with their outputs filled and logged. */
  ghost predicate Allocated(es: seq<Edge>, details: map<Block, Detail>, log: seq<Endpoint>, done: seq<Block>) {
    && details.Keys == ToSet(done) && LogIsPorts(es, log, done)
    && forall b :: b in done ==> OutputsDone(es, details, b)
  }

  lemma AllocatedMore(es: seq<Edge>, was: map<Block, Detail>, now: map<Block, Detail>, before: seq<Endpoint>,
                      after: seq<Endpoint>,
                      done: seq<Block>, b: Block)
    requires Allocated(es, was, before, done) && b !in done
    requires now.Keys == was.Keys + {b} && (forall c :: c in was ==> now[c] == was[c]) && OutputsDone(es, now, b)
    requires |after| == |before| + |UsedPorts(es, b, false)|
    requires forall k :: 0 <= k < |after| ==> after[k] == if k < |before| then before[k] else Endpoint(b, k - |before|)
    ensures Allocated(es, now, after, done + [b])
  {
    LogBlock(before, after, b, |UsedPorts(es, b, false)|);
    forall c | c in done ensures OutputsDone(es, now, c) {
      assert OutputsDone(es, was, c);
    }
  }

  lemma FillingKeepsOutputs(es: seq<Edge>, was: map<Block, Detail>, now: map<Block, Detail>, b: Block,
                            filled: seq<Edge>, c: Block)
    requires Filling(es, was, now, b, filled) && OutputsDone(es, was, c)
    ensures OutputsDone(es, now, c)
  {
  }

  lemma FillOne(es: seq<Edge>, was: map<Block, Detail>, before: map<Block, Detail>, now: map<Block, Detail>, b: Block,
                filled: seq<Edge>, e: Edge)
    requires Filling(es, was, before, b, filled) && e.dst.block == b && 0 <= e.dst.port < |before[b].inputs|
    requires forall f :: f in filled ==> f.dst.block == b && f.dst != e.dst
    requires now == before[b := before[b].(inputs := before[b].inputs[e.dst.port := Filled(e.src)])]
    ensures Filling(es, was, now, b, filled + [e])
  {
  }

  lemma LogOne(es: seq<Edge>, log: seq<Endpoint>, e: Edge, rs: seq<Endpoint>)
    requires e in es && e.dst !in log && ReaderListOk(es, log, e.src, rs) && NoDup(log)
    ensures ReaderListOk(es, log + [e.dst], e.src, rs + [e.dst]) && NoDup(log + [e.dst])
  {
  }

  lemma OneSource(es: seq<Edge>, e: Edge, f: Edge)
    requires EdgesOk(es) && e in es && e.dst == f.dst && e.src != f.src
    ensures f !in es
  {
  }

  lemma OtherBuffer(es: seq<Edge>, log: seq<Endpoint>, e: Edge, buffer: Endpoint, rs: seq<Endpoint>)
    requires EdgesOk(es) && e in es && buffer != e.src && ReaderListOk(es, log, buffer, rs)
    ensures ReaderListOk(es, log + [e.dst], buffer, rs)
  {
    OneSource(es, e, Edge(buffer, e.dst));
  }

  /** In a validated graph both ends of an edge have their slot. */
  lemma SlotsInRange(es: seq<Edge>, e: Edge)
    requires EdgesOk(es) && e in es
    ensures IsRange(UsedPorts(es, e.src.block, false)) ==> 0 <= e.src.port < |UsedPorts(es, e.src.block, false)|
    ensures IsRange(UsedPorts(es, e.dst.block, true)) ==> 0 <= e.dst.port < |UsedPorts(es, e.dst.block, true)|
  {
    assert PortUsed(es, e.src.block, false, e.src.port);
    assert PortUsed(es, e.dst.block, true, e.dst.port);
    assert e.src.port in UsedPorts(es, e.src.block, false);
    assert e.dst.port in UsedPorts(es, e.dst.block, true);
  }

  lemma AllSlotsFilled(es: seq<Edge>, details: map<Block, Detail>, b: Block, inEdges: seq<Edge>)
    requires b in details && |details[b].inputs| == |UsedPorts(es, b, true)| && IsRange(UsedPorts(es, b, true))
    requires forall e :: e in inEdges <==> e in es && e.dst.block == b
    requires forall e :: e in inEdges ==>
               0 <= e.dst.port < |details[b].inputs| && details[b].inputs[e.dst.port] == Filled(e.src)
    ensures InputsDone(es, details, b)
  {
    forall i | 0 <= i < |details[b].inputs|
      ensures details[b].inputs[i].Filled? && Edge(details[b].inputs[i].buffer, Endpoint(b, i)) in es
    {
      assert UsedPorts(es, b, true)[i] in UsedPorts(es, b, true);
      var e :| e in es && Endpoint(b, i) == e.dst;
      assert e in inEdges;
      assert e == Edge(e.src, Endpoint(b, i));
    }
  }

  lemma LogBlock(before: seq<Endpoint>, after: seq<Endpoint>, b: Block, n: nat)
    requires NoDup(before) && (forall x :: x in before ==> x.block != b) && |after| == |before| + n
    requires forall k :: 0 <= k < |after| ==>
               after[k] == if k < |before| then before[k] else Endpoint(b, k - |before|)
    ensures NoDup(after) && forall x :: x in after <==> x in before || (x.block == b && 0 <= x.port < n)
  {
    forall x | x in before || (x.block == b && 0 <= x.port < n) ensures x in after {
      if x in before {
        var k :| 0 <= k < |before| && before[k] == x;
        assert after[k] == x;
      } else {
        assert after[|before| + x.port] == x;
      }
    }
  }
}

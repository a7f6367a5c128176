/**
 The flowgraph: connecting and disconnecting stream edges, port validation, depth-first
 topological sort with three colours, and partition into connected components.
 */
module Flowgraph {
  import opened Graphs

  const IO_INFINITE := -1

  /** An io_signature: limits on the number of streams and the item size of each. */
  datatype Signature = Signature(minStreams: int, maxStreams: int, itemSize: int -> int)

  datatype Colour = White | Grey | Black

  predicate ValidPort(sig: Signature, port: int) {
    0 <= port && (sig.maxStreams == IO_INFINITE || port < sig.maxStreams)
  }

  predicate DstUsed(es: seq<Edge>, dst: Endpoint) {
    exists e :: e in es && e.dst == dst
  }

  /** No destination is driven twice and no port is negative. */
  ghost predicate EdgesOk(es: seq<Edge>) {
    && (forall i, j :: 0 <= i < j < |es| ==> es[i].dst != es[j].dst)
    && (forall e :: e in es ==> e.src.port >= 0 && e.dst.port >= 0)
  }

  datatype ConnectResult = Added | InvalidPort | DestinationInUse | ItemSizeMismatch

  datatype SortResult = Sorted(order: seq<Block>) | HasLoops

  datatype PartitionResult = Parts(parts: seq<seq<Block>>) | LoopsFound

  // ------------------------------------------------------------------------------------
  // What the searches keep
  // ------------------------------------------------------------------------------------

  function Downstream(es: seq<Edge>, b: Block): seq<Block> {
    if es == [] then []
    else
      Downstream(es[..|es| - 1], b) +
      (if es[|es| - 1].src.block == b then [es[|es| - 1].dst.block] else [])
  }

  lemma {:induction false} DownstreamMembers(es: seq<Edge>, b: Block, y: Block)
    ensures y in Downstream(es, b) <==> HasEdge(es, b, y)
  {
    if es != [] {
      DownstreamMembers(es[..|es| - 1], b, y);
      var last := es[|es| - 1];
      assert es == es[..|es| - 1] + [last];
      assert HasEdge(es, b, y) <==> HasEdge(es[..|es| - 1], b, y) || (last.src.block == b && last.dst.block == y);
    }
  }

  function AdjacentBlocks(es: seq<Edge>, b: Block): seq<Block> {
    if es == [] then []
    else
      var e := es[|es| - 1];
      AdjacentBlocks(es[..|es| - 1], b) +
      (if e.src.block == b then [e.dst.block] else []) +
      (if e.dst.block == b then [e.src.block] else [])
  }

  lemma {:induction false} AdjacentMembers(es: seq<Edge>, b: Block, y: Block)
    ensures y in AdjacentBlocks(es, b) <==> Adjacent(es, b, y)
  {
    if es != [] {
      AdjacentMembers(es[..|es| - 1], b, y);
      var e := es[|es| - 1];
      assert es == es[..|es| - 1] + [e];
      assert HasEdge(es, b, y) <==> HasEdge(es[..|es| - 1], b, y) || (e.src.block == b && e.dst.block == y);
      assert HasEdge(es, y, b) <==> HasEdge(es[..|es| - 1], y, b) || (e.src.block == y && e.dst.block == b);
    }
  }

  /** Every successor of a finished block finished before it. */
  ghost predicate PostOrder(es: seq<Edge>, output: seq<Block>) {
    forall j, y :: 0 <= j < |output| && HasEdge(es, output[j], y) ==> y in output[..j]
  }

  /** Grey blocks are the search path, black blocks the output so far. */
  ghost predicate Searching(es: seq<Edge>, universe: set<Block>, colour: map<Block, Colour>, output: seq<Block>,
                            path: seq<Block>) {
    && universe <= colour.Keys
    && (forall x :: x in universe ==> (colour[x] == Grey <==> x in path) && (colour[x] == Black <==> x in output))
    && (forall x :: x in path ==> x in universe)
    && (forall x :: x in output ==> x in universe)
    && NoDup(output) && PostOrder(es, output) && IsPath(es, path)
  }

  function Whites(universe: set<Block>, colour: map<Block, Colour>): set<Block> {
    set x | x in universe && x in colour && colour[x] == White
  }

  /** Reaching a block of the path again closes a cycle. */
  lemma PathCloses(es: seq<Edge>, universe: set<Block>, path: seq<Block>, y: Block)
    requires IsPath(es, path) && path != [] && y in path && HasEdge(es, path[|path| - 1], y)
    requires forall x :: x in path ==> x in universe
    ensures HasCycle(es, universe)
  {
    var k :| 0 <= k < |path| && path[k] == y;
    var c := path[k..] + [y];
    assert IsCycle(es, c) by {
      forall i | 0 <= i < |c| - 1 ensures HasEdge(es, c[i], c[i + 1]) {
        if i < |c| - 2 {
          assert HasEdge(es, path[k + i], path[k + i + 1]);
        }
      }
    }
  }

  lemma FinishBlock(es: seq<Edge>, universe: set<Block>, colour: map<Block, Colour>, output: seq<Block>,
                    path: seq<Block>, b: Block)
    requires Searching(es, universe, colour, output, path + [b]) && b !in path
    requires forall y :: HasEdge(es, b, y) ==> y in output
    ensures Searching(es, universe, colour[b := Black], output + [b], path)
  {
    var full, after := path + [b], output + [b];
    assert b in full;
    assert b in universe;
    forall j, y | 0 <= j < |after| && HasEdge(es, after[j], y) ensures y in after[..j] {
      if j < |output| {
        assert after[..j] == output[..j];
      } else {
        assert after[..j] == output;
      }
    }
    forall i | 0 <= i < |path| - 1 ensures HasEdge(es, path[i], path[i + 1]) {
      assert HasEdge(es, full[i], full[i + 1]);
    }
    assert forall x :: x in full <==> x in path || x == b;
    assert forall x :: x in after <==> x in output || x == b;
  }

  lemma EnterBlock(es: seq<Edge>, universe: set<Block>, colour: map<Block, Colour>, output: seq<Block>,
                   path: seq<Block>, b: Block)
    requires Searching(es, universe, colour, output, path)
    requires b in universe && colour[b] == White && (path != [] ==> HasEdge(es, path[|path| - 1], b))
    ensures Searching(es, universe, colour[b := Grey], output, path + [b]) && b !in path
    ensures Whites(universe, colour[b := Grey]) < Whites(universe, colour)
  {
    var full := path + [b];
    forall i | 0 <= i < |full| - 1 ensures HasEdge(es, full[i], full[i + 1]) {
      if i < |path| - 1 {
        assert HasEdge(es, path[i], path[i + 1]);
      }
    }
    assert forall x :: x in full <==> x in path || x == b;
    assert b in Whites(universe, colour) && b !in Whites(universe, colour[b := Grey]);
  }

  function Reverse(s: seq<Block>): (r: seq<Block>)
    ensures |r| == |s| && forall i :: 0 <= i < |s| ==> r[i] == s[|s| - 1 - i]
  {
    seq(|s|, i requires 0 <= i < |s| => s[|s| - 1 - i])
  }

  lemma ReversedPostOrderIsForward(es: seq<Edge>, output: seq<Block>)
    requires NoDup(output) && PostOrder(es, output)
    ensures Forward(es, Reverse(output)) && NoDup(Reverse(output))
    ensures forall x :: x in Reverse(output) <==> x in output
  {
    var r := Reverse(output);
    forall x | x in output ensures x in r {
      var k :| 0 <= k < |output| && output[k] == x;
      assert r[|output| - 1 - k] == x;
    }
    forall i, j | 0 <= i < |r| && 0 <= j < |r| && HasEdge(es, r[i], r[j]) ensures i < j {
      var a, b := |output| - 1 - i, |output| - 1 - j;
      assert output[b] in output[..a];
      var k :| 0 <= k < a && output[k] == output[b];
      assert k == b;
    }
  }

  function EraseAt<T>(s: seq<T>, i: nat): (t: seq<T>)
    requires i < |s|
    ensures |t| == |s| - 1
    ensures forall k :: 0 <= k < |t| ==> t[k] == if k < i then s[k] else s[k + 1]
  {
    s[..i] + s[i + 1..]
  }

  lemma ErasedMultiset<T>(s: seq<T>, i: nat)
    requires i < |s|
    ensures multiset(EraseAt(s, i)) == multiset(s) - multiset{s[i]}
  {
    assert s == s[..i] + [s[i]] + s[i + 1..];
  }

  lemma ErasedStaysOk(es: seq<Edge>, i: nat)
    requires i < |es| && EdgesOk(es)
    ensures EdgesOk(EraseAt(es, i)) && es[i] !in EraseAt(es, i)
  {
    var t := EraseAt(es, i);
    forall k | 0 <= k < |t| ensures t[k] != es[i] {
      assert t[k].dst != es[i].dst;
    }
    forall e | e in t ensures e in es {
      var k :| 0 <= k < |t| && t[k] == e;
    }
  }

  // ------------------------------------------------------------------------------------
  // The class
  // ------------------------------------------------------------------------------------

  class FlowgraphObject {
    const outSig: Block -> Signature
    const inSig: Block -> Signature
    var edges: seq<Edge>
    var msgBlocks: seq<Block>
    var colour: map<Block, Colour>

    constructor (outSig: Block -> Signature, inSig: Block -> Signature)
      ensures this.outSig == outSig && this.inSig == inSig && edges == [] && EdgesOk(edges) && msgBlocks == []
    {
      this.outSig, this.inSig := outSig, inSig;
      edges, msgBlocks, colour := [], [], map[];
    }

    /** Appends the edge, or leaves the graph alone for the first reason that applies. */
    method Connect(src: Endpoint, dst: Endpoint) returns (r: ConnectResult)
      modifies this`edges
      ensures old(EdgesOk(edges)) ==> EdgesOk(edges)
      ensures edges == if r == Added then old(edges) + [Edge(src, dst)] else old(edges)
      ensures var portsOk := ValidPort(outSig(src.block), src.port) && ValidPort(inSig(dst.block), dst.port);
        && (r == InvalidPort <==> !portsOk)
        && (r == DestinationInUse <==> portsOk && DstUsed(old(edges), dst))
        && (r == Added <==>
              && portsOk && !DstUsed(old(edges), dst)
              && outSig(src.block).itemSize(src.port) == inSig(dst.block).itemSize(dst.port))
    {
      if !ValidPort(outSig(src.block), src.port) || !ValidPort(inSig(dst.block), dst.port) {
        return InvalidPort;
      }
      for i := 0 to |edges|
        invariant forall j :: 0 <= j < i ==> edges[j].dst != dst
      {
        if edges[i].dst == dst {
          return DestinationInUse;
        }
      }
      if outSig(src.block).itemSize(src.port) != inSig(dst.block).itemSize(dst.port) {
        return ItemSizeMismatch;
      }
      edges := edges + [Edge(src, dst)];
      r := Added;
    }

    /** Removes the edge if it is there; in a graph built by Connect that is its only copy. */
    method Disconnect(src: Endpoint, dst: Endpoint) returns (found: bool)
      modifies this`edges
      ensures found <==> Edge(src, dst) in old(edges)
      ensures !found ==> edges == old(edges)
      ensures found ==> multiset(edges) == multiset(old(edges)) - multiset{Edge(src, dst)}
      ensures old(EdgesOk(edges)) ==> EdgesOk(edges) && Edge(src, dst) !in edges
    {
      for i := 0 to |edges|
        invariant edges == old(edges)
        invariant forall j :: 0 <= j < i ==> edges[j] != Edge(src, dst)
      {
        if edges[i] == Edge(src, dst) {
          ErasedMultiset(edges, i);
          if EdgesOk(edges) {
            ErasedStaysOk(edges, i);
          }
          edges := EraseAt(edges, i);
          return true;
        }
      }
      found := false;
    }

    method TopologicalDfsVisit(block: Block, output: seq<Block>, ghost path: seq<Block>, ghost universe: set<Block>)
      returns (r: SortResult)
      requires Searching(edges, universe, colour, output, path) && ClosedDownstream(edges, universe)
      requires block in universe && colour[block] == White
      requires path != [] ==> HasEdge(edges, path[|path| - 1], block)
      modifies this`colour
      ensures r.HasLoops? ==> HasCycle(edges, universe)
      ensures r.Sorted? ==>
                && Searching(edges, universe, colour, r.order, path)
                && output <= r.order && block in r.order
                && Whites(universe, colour) < old(Whites(universe, colour))
      decreases Whites(universe, colour)
    {
      EnterBlock(edges, universe, colour, output, path, block);
      colour := colour[block := Grey];
      ghost var here := path + [block];
      var blocks := UniqueVector(Downstream(edges, block));
      var out := output;
      for i := 0 to |blocks|
        invariant Searching(edges, universe, colour, out, here) && output <= out
        invariant forall j :: 0 <= j < i ==> blocks[j] in out
        invariant Whites(universe, colour) < old(Whites(universe, colour))
      {
        assert blocks[i] in blocks;
        DownstreamMembers(edges, block, blocks[i]);
        match colour[blocks[i]] {
          case White =>
            var sub := TopologicalDfsVisit(blocks[i], out, here, universe);
            if sub.HasLoops? {
              return HasLoops;
            }
            out := sub.order;
          case Grey =>
            PathCloses(edges, universe, here, blocks[i]);
            return HasLoops;
          case Black =>
        }
      }
      forall y | HasEdge(edges, block, y) ensures y in out {
        DownstreamMembers(edges, block, y);
      }
      FinishBlock(edges, universe, colour, out, path, block);
      colour := colour[block := Black];
      r := Sorted(out + [block]);
    }

    /** Sources first, each group in its given order. */
    method SortSourcesFirst(blocks: seq<Block>) returns (r: seq<Block>)
      ensures multiset(r) == multiset(blocks)
      ensures forall i, j :: 0 <= i < j < |r| && IsSource(edges, r[j]) ==> IsSource(edges, r[i])
    {
      var sources, nonsources := [], [];
      for i := 0 to |blocks|
        invariant multiset(sources) + multiset(nonsources) == multiset(blocks[..i])
        invariant forall k :: 0 <= k < |sources| ==> IsSource(edges, sources[k])
        invariant forall k :: 0 <= k < |nonsources| ==> !IsSource(edges, nonsources[k])
      {
        assert blocks[..i + 1] == blocks[..i] + [blocks[i]];
        if IsSource(edges, blocks[i]) {
          sources := sources + [blocks[i]];
        } else {
          nonsources := nonsources + [blocks[i]];
        }
      }
      assert blocks[..|blocks|] == blocks;
      r := sources + nonsources;
    }

    /**
     On blocks closed under downstream edges: loops are reported exactly when there is a cycle, and
     otherwise the blocks come back permuted so that every edge goes forward.
     */
    method TopologicalSort(blocks: seq<Block>) returns (r: SortResult)
      requires NoDup(blocks) && ClosedDownstream(edges, ToSet(blocks))
      modifies this`colour
      ensures r.HasLoops? <==> HasCycle(edges, ToSet(blocks))
      ensures r.Sorted? ==> multiset(r.order) == multiset(blocks) && Forward(edges, r.order)
    {
      var tmp := SortSourcesFirst(blocks);
      ghost var universe := ToSet(blocks);
      SameElements(tmp, blocks);
      var i := 0;
      while i < |tmp|
        invariant 0 <= i <= |tmp|
        invariant forall j :: 0 <= j < i ==> tmp[j] in colour && colour[tmp[j]] == White
      {
        colour := colour[tmp[i] := White];
        i := i + 1;
      }
      assert Searching(edges, universe, colour, [], []);
      var output := [];
      for i := 0 to |tmp|
        invariant Searching(edges, universe, colour, output, [])
        invariant forall j :: 0 <= j < i ==> tmp[j] in output
      {
        assert tmp[i] in tmp;
        if colour[tmp[i]] == White {
          var sub := TopologicalDfsVisit(tmp[i], output, [], universe);
          if sub.HasLoops? {
            return HasLoops;
          }
          output := sub.order;
        }
      }
      ReversedPostOrderIsForward(edges, output);
      r := Sorted(Reverse(output));
      assert forall x :: x in r.order <==> x in tmp by {
        assert forall x :: x in r.order <==> x in output;
      }
      SameMembersPermute(r.order, blocks);
      ForwardHasNoCycle(edges, r.order);
      assert ToSet(r.order) == universe;
    }

    method ReachableDfsVisit(block: Block, ghost universe: set<Block>)
      requires universe <= colour.Keys && ClosedAdjacent(edges, universe) && block in universe
      requires colour[block] == White && OnlyBlackOrWhite(universe, colour)
      modifies this`colour
      ensures universe <= colour.Keys && OnlyBlackOrWhite(universe, colour) && colour[block] == Black
      ensures Reached(edges, universe, old(colour), colour, block, {})
      decreases Whites(universe, colour)
    {
      ghost var start := colour;
      BlockEntered(edges, universe, start, block);
      colour := colour[block := Black];
      var unique := UniqueVector(AdjacentBlocks(edges, block));
      assert forall k :: 0 <= k < |unique| ==> unique[k] in AdjacentBlocks(edges, block);
      var adjacent: seq<Block> := unique;
      for i := 0 to |adjacent|
        invariant Visiting(edges, universe, start, colour, block, adjacent[..i])
      {
        AdjacentMembers(edges, block, adjacent[i]);
        assert adjacent[i] in adjacent;
        ghost var before := colour;
        if colour[adjacent[i]] == White {
          ReachableDfsVisit(adjacent[i], universe);
          ReachedThrough(edges, universe, start, before, colour, block, adjacent[i]);
        }
        VisitedOneMore(edges, universe, start, before, colour, block, adjacent, i);
      }
      AllVisited(edges, universe, start, colour, block, adjacent);
    }

    /** Every block of a message edge or of a stream edge, once, in address order. */
    method CalcUsedBlocks() returns (r: seq<Block>)
      ensures StrictlySorted(r) && forall x :: x in r <==> Used(edges, msgBlocks, x)
    {
      var tmp := msgBlocks;
      for i := 0 to |edges|
        invariant forall x :: x in tmp <==> Used(edges[..i], msgBlocks, x)
      {
        assert edges[..i + 1] == edges[..i] + [edges[i]];
        tmp := tmp + [edges[i].src.block, edges[i].dst.block];
      }
      assert edges[..|edges|] == edges;
      var unique := UniqueVector(tmp);
      assert forall k :: 0 <= k < |unique| ==> unique[k] in tmp;
      r := unique;
    }

    /** The blocks of `blocks` connected to `block`, in their given order. */
    method CalcReachableBlocks(block: Block, blocks: seq<Block>) returns (r: seq<Block>)
      requires NoDup(blocks) && block in blocks && ClosedAdjacent(edges, ToSet(blocks))
      modifies this`colour
      ensures NoDup(r) && forall x :: x in r <==> x in blocks && Connected(edges, block, x)
    {
      ghost var universe := ToSet(blocks);
      for i := 0 to |blocks|
        invariant forall j :: 0 <= j < i ==> blocks[j] in colour && colour[blocks[j]] == White
      {
        colour := colour[blocks[i] := White];
      }
      ghost var start := colour;
      assert forall x :: x in universe ==> start[x] == White;
      ReachableDfsVisit(block, universe);
      r := [];
      for i := 0 to |blocks|
        invariant NoDup(r) && forall x :: x in r <==> x in blocks[..i] && colour[x] == Black
      {
        if colour[blocks[i]] == Black {
          r := r + [blocks[i]];
        }
      }
      assert blocks[..|blocks|] == blocks;
      BlackIsComponent(edges, universe, start, colour, block);
    }

    /**
     Loops are found exactly when the used blocks have a cycle. Otherwise the parts hold every used
     block once, two used blocks share a part exactly when they are connected, and every edge goes
     forward in its part.
     */
    method Partition() returns (r: PartitionResult)
      modifies this`colour
      ensures r.LoopsFound? <==> HasCycle(edges, UsedSet(edges, msgBlocks))
      ensures r.Parts? ==> IsPartition(edges, msgBlocks, r.parts)
    {
      var blocks := CalcUsedBlocks();
      ghost var used := blocks;
      var result := [];
      while blocks != []
        invariant NoDup(blocks) && ClosedAdjacent(edges, ToSet(blocks))
        invariant Split(edges, used, blocks, result)
        decreases |blocks|
      {
        var graph := CalcReachableBlocks(blocks[0], blocks);
        ConnectedReflexive(edges, blocks[0]);
        ComponentIsClosed(edges, blocks[0], blocks, graph);
        var sorted := TopologicalSort(graph);
        if sorted.HasLoops? {
          CycleGrows(edges, ToSet(graph), UsedSet(edges, msgBlocks));
          return LoopsFound;
        }
        ghost var before := blocks;
        blocks := Without(blocks, graph);
        PermutedMembers(sorted.order, graph);
        SplitOne(edges, used, before, result, sorted.order, blocks);
        result := result + [sorted.order];
      }
      SplitDone(edges, msgBlocks, used, result);
      r := Parts(result);
    }

    /** Takes the members of `gone` out of `blocks`. */
    method Without(blocks: seq<Block>, gone: seq<Block>) returns (r: seq<Block>)
      requires NoDup(blocks) && NoDup(gone) && forall x :: x in gone ==> x in blocks
      ensures NoDup(r) && (forall x :: x in r <==> x in blocks && x !in gone)
      ensures |r| + |gone| == |blocks|
    {
      r := blocks;
      for i := 0 to |gone|
        invariant NoDup(r) && (forall x :: x in r <==> x in blocks && x !in gone[..i])
        invariant |r| + i == |blocks|
      {
        assert gone[i] in gone && gone[i] !in gone[..i];
        var k :| 0 <= k < |r| && r[k] == gone[i];
        ErasedMembers(r, k);
        assert gone[..i + 1] == gone[..i] + [gone[i]];
        r := EraseAt(r, k);
      }
      assert gone[..|gone|] == gone;
    }
  }

  predicate Used(es: seq<Edge>, msgBlocks: seq<Block>, x: Block) {
    x in msgBlocks || exists e :: e in es && (e.src.block == x || e.dst.block == x)
  }

  function UsedSet(es: seq<Edge>, msgBlocks: seq<Block>): (r: set<Block>)
    ensures forall x :: x in r <==> Used(es, msgBlocks, x)
  {
    ToSet(msgBlocks) + (set e | e in es :: e.src.block) + (set e | e in es :: e.dst.block)
  }

  lemma ErasedMembers(s: seq<Block>, k: nat)
    requires NoDup(s) && k < |s|
    ensures NoDup(EraseAt(s, k)) && forall x :: x in EraseAt(s, k) <==> x in s && x != s[k]
  {
    var t := EraseAt(s, k);
    forall x | x in s && x != s[k] ensures x in t {
      var i :| 0 <= i < |s| && s[i] == x;
      assert t[if i < k then i else i - 1] == x;
    }
  }

  lemma BlackIsComponent(es: seq<Edge>, universe: set<Block>, start: map<Block, Colour>, colour: map<Block, Colour>,
                         block: Block)
    requires Reached(es, universe, start, colour, block, {}) && block in universe && colour[block] == Black
    requires forall x :: x in universe ==> start[x] == White
    ensures forall x :: x in universe ==> (colour[x] == Black <==> Connected(es, block, x))
  {
    var black := set x | x in universe && colour[x] == Black;
    forall x | x in universe && Connected(es, block, x) ensures colour[x] == Black {
      var p :| WalkBetween(es, p, block, x);
      ClosedHoldsComponent(es, black, p, block, x);
    }
  }

  lemma ComponentIsClosed(es: seq<Edge>, b: Block, blocks: seq<Block>, graph: seq<Block>)
    requires ClosedAdjacent(es, ToSet(blocks)) && b in blocks
    requires forall x :: x in graph <==> x in blocks && Connected(es, b, x)
    ensures ClosedAdjacent(es, ToSet(graph)) && ClosedDownstream(es, ToSet(graph))
  {
    forall x, y | x in graph && Adjacent(es, x, y) ensures y in graph {
      assert x in ToSet(blocks);
      ConnectedReflexive(es, y);
      ConnectedStep(es, x, y, y);
      ConnectedTransitive(es, b, x, y);
    }
  }


  predicate IsSource(es: seq<Edge>, b: Block) {
    forall e :: e in es ==> e.dst.block != b
  }

  lemma SameElements(s: seq<Block>, t: seq<Block>)
    requires multiset(s) == multiset(t)
    ensures forall x :: x in s <==> x in t
  {
    forall x ensures x in s <==> x in t {
      assert x in s <==> x in multiset(s);
      assert x in t <==> x in multiset(t);
    }
  }

  ghost predicate OnlyBlackOrWhite(universe: set<Block>, colour: map<Block, Colour>) {
    forall x :: x in universe && x in colour ==> colour[x] == White || colour[x] == Black
  }

  /**
   Since `before`, blocks only turned black, only blocks connected to `from`, and the neighbours of
   those that did are black too, except for the blocks still `open`.
   */
  ghost predicate Reached(es: seq<Edge>, universe: set<Block>, before: map<Block, Colour>, after: map<Block, Colour>,
                          from: Block, open: set<Block>) {
    && universe <= before.Keys && universe <= after.Keys
    && (forall x :: x in universe && before[x] == Black ==> after[x] == Black)
    && (forall x :: x in universe && before[x] != Black && after[x] == Black ==> Connected(es, from, x))
    && (forall x, y :: x in universe && before[x] != Black && after[x] == Black && x !in open && Adjacent(es, x, y) ==>
          y in universe && after[y] == Black)
  }

  /** The visit of `block` is under way, and the neighbours in `done` are black. */
  ghost predicate Visiting(es: seq<Edge>, universe: set<Block>, start: map<Block, Colour>, now: map<Block, Colour>,
                           block: Block, done: seq<Block>)
  {
    && OnlyBlackOrWhite(universe, now) && block in universe && Reached(es, universe, start, now, block, {block})
    && now[block] == Black && Whites(universe, now) < Whites(universe, start)
    && forall y :: y in done ==> y in universe && now[y] == Black
  }

  lemma BlockEntered(es: seq<Edge>, universe: set<Block>, start: map<Block, Colour>, block: Block)
    requires universe <= start.Keys && block in universe && start[block] == White && OnlyBlackOrWhite(universe, start)
    ensures Visiting(es, universe, start, start[block := Black], block, [])
  {
    ConnectedReflexive(es, block);
    assert block in Whites(universe, start);
  }

  lemma VisitedOneMore(es: seq<Edge>, universe: set<Block>, start: map<Block, Colour>, before: map<Block, Colour>,
                       now: map<Block, Colour>, block: Block, adjacent: seq<Block>, i: nat)
    requires i < |adjacent| && Visiting(es, universe, start, before, block, adjacent[..i])
    requires adjacent[i] in universe && OnlyBlackOrWhite(universe, now)
    requires Reached(es, universe, start, now, block, {block})
    requires Whites(universe, now) <= Whites(universe, before) && now[adjacent[i]] == Black
    requires forall x :: x in universe && before[x] == Black ==> now[x] == Black
    ensures Visiting(es, universe, start, now, block, adjacent[..i + 1])
  {
    assert adjacent[..i + 1] == adjacent[..i] + [adjacent[i]];
  }

  lemma AllVisited(es: seq<Edge>, universe: set<Block>, start: map<Block, Colour>, now: map<Block, Colour>,
                   block: Block, adjacent: seq<Block>)
    requires Visiting(es, universe, start, now, block, adjacent[..|adjacent|])
    requires forall y :: y in AdjacentBlocks(es, block) ==> y in adjacent
    ensures Reached(es, universe, start, now, block, {})
  {
    assert adjacent[..|adjacent|] == adjacent;
    forall y | Adjacent(es, block, y) ensures y in universe && now[y] == Black {
      AdjacentMembers(es, block, y);
    }
  }

  lemma ReachedThrough(es: seq<Edge>, universe: set<Block>, start: map<Block, Colour>, before: map<Block, Colour>,
                       after: map<Block, Colour>, block: Block, child: Block)
    requires Reached(es, universe, start, before, block, {block}) && Reached(es, universe, before, after, child, {})
    requires Adjacent(es, block, child) && child in universe && before[child] == White
    requires OnlyBlackOrWhite(universe, before)
    ensures Reached(es, universe, start, after, block, {block})
    ensures Whites(universe, after) <= Whites(universe, before)
  {
    forall x | x in universe && start[x] != Black && after[x] == Black ensures Connected(es, block, x) {
      if before[x] != Black {
        ConnectedStep(es, block, child, x);
      }
    }
  }

  // ------------------------------------------------------------------------------------
  // Partitions
  // ------------------------------------------------------------------------------------

  ghost predicate InPart(parts: seq<seq<Block>>, i: nat, x: Block) {
    i < |parts| && x in parts[i]
  }

  /** The blocks of `left` are still to be split; the parts hold the other used blocks. */
  ghost predicate Split(es: seq<Edge>, used: seq<Block>, left: seq<Block>, parts: seq<seq<Block>>) {
    && (forall x :: x in left ==> x in used)
    && (forall x :: x in used ==> (x in left <==> !exists i :: InPart(parts, i, x)))
    && (forall i, x :: InPart(parts, i, x) ==> x in used && x !in left)
    && (forall i, j, x :: InPart(parts, i, x) && InPart(parts, j, x) ==> i == j)
    && (forall i, x, y :: InPart(parts, i, x) && y in used ==> (InPart(parts, i, y) <==> Connected(es, x, y)))
    && (forall i :: 0 <= i < |parts| ==> parts[i] != [] && NoDup(parts[i]) && Forward(es, parts[i]))
  }

  ghost predicate IsPartition(es: seq<Edge>, msgBlocks: seq<Block>, parts: seq<seq<Block>>) {
    && (forall x :: Used(es, msgBlocks, x) <==> exists i :: InPart(parts, i, x))
    && (forall i, j, x :: InPart(parts, i, x) && InPart(parts, j, x) ==> i == j)
    && (forall i, j, x, y :: InPart(parts, i, x) && InPart(parts, j, y) ==> (i == j <==> Connected(es, x, y)))
    && (forall i :: 0 <= i < |parts| ==> parts[i] != [] && NoDup(parts[i]) && Forward(es, parts[i]))
  }

  lemma CycleGrows(es: seq<Edge>, s: set<Block>, t: set<Block>)
    requires HasCycle(es, s) && s <= t
    ensures HasCycle(es, t)
  {
    var p :| IsCycle(es, p) && forall x :: x in p ==> x in s;
    assert forall x :: x in p ==> x in t;
  }

  lemma CountedTwice(s: seq<Block>, i: nat, j: nat)
    requires i < j < |s| && s[i] == s[j]
    ensures multiset(s)[s[i]] >= 2
  {
    assert s == s[..j] + [s[j]] + s[j + 1..];
    assert s[i] in s[..j];
  }

  lemma PermutedMembers(order: seq<Block>, graph: seq<Block>)
    requires multiset(order) == multiset(graph) && NoDup(graph)
    ensures (forall x :: x in order <==> x in graph) && NoDup(order)
  {
    SameElements(order, graph);
    forall i, j | 0 <= i < j < |order| ensures order[i] != order[j] {
      NoDupMultiset(graph, order[i]);
      if order[i] == order[j] {
        CountedTwice(order, i, j);
      }
    }
  }

  lemma SplitOne(es: seq<Edge>, used: seq<Block>, left: seq<Block>, parts: seq<seq<Block>>, part: seq<Block>,
                 left': seq<Block>)
    requires Split(es, used, left, parts) && left != []
    requires ClosedAdjacent(es, ToSet(left))
    requires forall x :: x in part <==> x in left && Connected(es, left[0], x)
    requires NoDup(part) && Forward(es, part)
    requires forall x :: x in left' <==> x in left && x !in part
    ensures Split(es, used, left', parts + [part])
    ensures ClosedAdjacent(es, ToSet(left'))
  {
    var parts', n := parts + [part], |parts|;
    ConnectedReflexive(es, left[0]);
    assert forall i, x :: InPart(parts', i, x) <==> InPart(parts, i, x) || (i == n && x in part);
    forall x | x in used ensures x in left' <==> !exists i :: InPart(parts', i, x) {
      if x in part {
        assert InPart(parts', n, x);
      }
      if x !in left {
        var i :| InPart(parts, i, x);
        assert InPart(parts', i, x);
      }
    }
    forall i, x, y | InPart(parts', i, x) && y in used
      ensures InPart(parts', i, y) <==> Connected(es, x, y)
    {
      if i == n {
        ComponentMembers(es, left, x, y);
      }
    }
    forall a, b | a in left' && Adjacent(es, a, b) ensures b in left' {
      assert a in ToSet(left);
      if b in part {
        ConnectedReflexive(es, a);
        ConnectedStep(es, b, a, a);
        ConnectedTransitive(es, left[0], b, a);
      }
    }
  }

  /** For x in the component of left[0]: y is in it exactly when y is connected to x. */
  lemma ComponentMembers(es: seq<Edge>, left: seq<Block>, x: Block, y: Block)
    requires left != [] && ClosedAdjacent(es, ToSet(left)) && x in left && Connected(es, left[0], x)
    ensures y in left && Connected(es, left[0], y) <==> Connected(es, x, y)
  {
    ConnectedSymmetric(es, left[0], x);
    if Connected(es, left[0], y) {
      ConnectedTransitive(es, x, left[0], y);
    }
    if Connected(es, x, y) {
      ConnectedTransitive(es, left[0], x, y);
      var p :| WalkBetween(es, p, x, y);
      ClosedHoldsComponent(es, ToSet(left), p, x, y);
    }
  }

  lemma SplitDone(es: seq<Edge>, msgBlocks: seq<Block>, used: seq<Block>, parts: seq<seq<Block>>)
    requires Split(es, used, [], parts) && forall x :: x in used <==> Used(es, msgBlocks, x)
    ensures IsPartition(es, msgBlocks, parts)
    ensures !HasCycle(es, UsedSet(es, msgBlocks))
  {
    forall i, j, x, y | InPart(parts, i, x) && InPart(parts, j, y) ensures i == j <==> Connected(es, x, y) {
      assert InPart(parts, i, y) <==> Connected(es, x, y);
    }
    if HasCycle(es, UsedSet(es, msgBlocks)) {
      var p :| IsCycle(es, p) && forall x :: x in p ==> x in UsedSet(es, msgBlocks);
      assert p[0] in p;
      var i: nat :| InPart(parts, i, p[0]);
      PartIsClosed(es, msgBlocks, used, parts, i);
      forall k | 0 <= k < |p| - 1 ensures Adjacent(es, p[k], p[k + 1]) {
        assert HasEdge(es, p[k], p[k + 1]);
      }
      ClosedHoldsComponent(es, ToSet(parts[i]), p, p[0], p[|p| - 1]);
      assert HasCycle(es, ToSet(parts[i]));
      ForwardHasNoCycle(es, parts[i]);
    }
  }

  lemma PartIsClosed(es: seq<Edge>, msgBlocks: seq<Block>, used: seq<Block>, parts: seq<seq<Block>>, i: nat)
    requires Split(es, used, [], parts) && (forall x :: x in used <==> Used(es, msgBlocks, x)) && i < |parts|
    ensures ClosedAdjacent(es, ToSet(parts[i]))
  {
    forall a, b | a in parts[i] && Adjacent(es, a, b) ensures b in parts[i] {
      ConnectedReflexive(es, b);
      ConnectedStep(es, a, b, b);
      assert Used(es, msgBlocks, b);
      assert InPart(parts, i, a) && b in used;
      assert InPart(parts, i, b);
    }
  }

  // ------------------------------------------------------------------------------------
  // Validation
  // ------------------------------------------------------------------------------------

  predicate SignatureOk(sig: Signature) {
    sig.minStreams >= 0 && (sig.maxStreams == IO_INFINITE || sig.maxStreams >= sig.minStreams)
  }

  datatype PortsResult = PortsOk | Insufficient | TooMany | Missing(port: int)

  predicate IsRange(ports: seq<int>) {
    forall i :: 0 <= i < |ports| ==> ports[i] == i
  }

  predicate WithinLimits(sig: Signature, n: nat) {
    sig.minStreams <= n && (sig.maxStreams == IO_INFINITE || n <= sig.maxStreams)
  }

  lemma {:induction false} SortedSpread(ports: seq<int>, i: nat)
    requires StrictlySorted(ports) && i < |ports|
    ensures ports[0] + i <= ports[i]
  {
    if i > 0 {
      SortedSpread(ports, i - 1);
    }
  }

  lemma SortedRange(ports: seq<int>)
    requires StrictlySorted(ports) && ports != [] && ports[0] >= 0
    ensures IsRange(ports) <==> ports[|ports| - 1] + 1 == |ports|
  {
    if ports[|ports| - 1] + 1 == |ports| {
      forall i | 0 <= i < |ports| ensures ports[i] == i {
        SortedSpread(ports, i);
        SortedSpread(ports[i..], |ports| - 1 - i);
      }
    }
  }

  /**
   A sorted port list without duplicates is accepted exactly when it is 0, 1, ..., n - 1 and n is
   within the signature's limits; the port reported missing is the first one.
   */
  method CheckContiguity(sig: Signature, ports: seq<int>) returns (r: PortsResult)
    requires SignatureOk(sig) && StrictlySorted(ports) && forall p :: p in ports ==> p >= 0
    ensures r.PortsOk? <==> IsRange(ports) && WithinLimits(sig, |ports|)
    ensures r.Insufficient? <==> |ports| < sig.minStreams
    ensures r.TooMany? <==> sig.maxStreams != IO_INFINITE && |ports| > sig.maxStreams
    ensures r.Missing? ==> 0 <= r.port < |ports| && r.port !in ports && IsRange(ports[..r.port])
  {
    var n := |ports|;
    if n == 0 && sig.minStreams == 0 {
      return PortsOk;
    }
    if n < sig.minStreams {
      return Insufficient;
    }
    if n > sig.maxStreams && sig.maxStreams != IO_INFINITE {
      return TooMany;
    }
    assert ports[0] in ports;
    SortedRange(ports);
    if ports[n - 1] + 1 != n {
      for i := 0 to n
        invariant IsRange(ports[..i])
      {
        if ports[i] != i {
          SortedSpread(ports, i);
          return Missing(i);
        }
      }
    }
    r := PortsOk;
  }

  function PortOf(e: Edge, b: Block, inputs: bool): seq<int> {
    if inputs then (if e.dst.block == b then [e.dst.port] else [])
    else (if e.src.block == b then [e.src.port] else [])
  }

  function Ports(es: seq<Edge>, b: Block, inputs: bool): seq<int> {
    if es == [] then [] else Ports(es[..|es| - 1], b, inputs) + PortOf(es[|es| - 1], b, inputs)
  }

  predicate PortUsed(es: seq<Edge>, b: Block, inputs: bool, port: int) {
    exists e :: e in es && Endpoint(b, port) == if inputs then e.dst else e.src
  }

  lemma {:induction false} PortsMembers(es: seq<Edge>, b: Block, inputs: bool, port: int)
    ensures port in Ports(es, b, inputs) <==> PortUsed(es, b, inputs, port)
  {
    if es != [] {
      var t, last := es[..|es| - 1], es[|es| - 1];
      PortsMembers(t, b, inputs, port);
      assert es == t + [last];
      assert PortUsed(es, b, inputs, port) <==>
        PortUsed(t, b, inputs, port) || Endpoint(b, port) == if inputs then last.dst else last.src;
    }
  }

  /** The ports in use on one side of a block, sorted, each once. */
  function UsedPorts(es: seq<Edge>, b: Block, inputs: bool): (r: seq<int>)
    ensures StrictlySorted(r)
    ensures forall p :: p in r <==> PortUsed(es, b, inputs, p)
  {
    assert forall p :: p in Ports(es, b, inputs) <==> PortUsed(es, b, inputs, p) by {
      forall p ensures p in Ports(es, b, inputs) <==> PortUsed(es, b, inputs, p) {
        PortsMembers(es, b, inputs, p);
      }
    }
    UniqueVector(Ports(es, b, inputs))
  }

  /** The ports of every block are 0, 1, ... without gaps and as many as its signatures allow. */
  ghost predicate BlockValid(es: seq<Edge>, inSig: Block -> Signature, outSig: Block -> Signature, b: Block) {
    && IsRange(UsedPorts(es, b, true)) && WithinLimits(inSig(b), |UsedPorts(es, b, true)|)
    && IsRange(UsedPorts(es, b, false)) && WithinLimits(outSig(b), |UsedPorts(es, b, false)|)
  }

  /** The block's ports are contiguous and within limits, and its topology check agrees to their counts. */
  ghost predicate BlockAgrees(es: seq<Edge>, inSig: Block -> Signature, outSig: Block -> Signature,
                              topology: (Block, nat, nat) -> bool, b: Block)
  {
    && BlockValid(es, inSig, outSig, b)
    && topology(b, |UsedPorts(es, b, true)|, |UsedPorts(es, b, false)|)
  }

  ghost predicate AllAgree(es: seq<Edge>, inSig: Block -> Signature, outSig: Block -> Signature,
                           topology: (Block, nat, nat) -> bool, blocks: seq<Block>)
  {
    forall b :: b in blocks ==> BlockAgrees(es, inSig, outSig, topology, b)
  }

  lemma SomeDisagrees(es: seq<Edge>, inSig: Block -> Signature, outSig: Block -> Signature,
                      topology: (Block, nat, nat) -> bool, blocks: seq<Block>, i: nat)
    requires i < |blocks| && !BlockAgrees(es, inSig, outSig, topology, blocks[i])
    ensures !AllAgree(es, inSig, outSig, topology, blocks)
  {
  }

  method ValidateBlock(fg: FlowgraphObject, topology: (Block, nat, nat) -> bool, b: Block) returns (ok: bool)
    requires EdgesOk(fg.edges) && SignatureOk(fg.inSig(b)) && SignatureOk(fg.outSig(b))
    ensures ok <==> BlockAgrees(fg.edges, fg.inSig, fg.outSig, topology, b)
  {
    var ins, outs := UsedPorts(fg.edges, b, true), UsedPorts(fg.edges, b, false);
    var r := CheckContiguity(fg.inSig(b), ins);
    if !r.PortsOk? {
      return false;
    }
    r := CheckContiguity(fg.outSig(b), outs);
    ok := r.PortsOk? && topology(b, |ins|, |outs|);
  }

  method Validate(fg: FlowgraphObject, topology: (Block, nat, nat) -> bool) returns (ok: bool)
    requires EdgesOk(fg.edges) && forall b :: SignatureOk(fg.inSig(b)) && SignatureOk(fg.outSig(b))
    ensures ok <==> forall b :: Used(fg.edges, fg.msgBlocks, b) ==>
              BlockAgrees(fg.edges, fg.inSig, fg.outSig, topology, b)
  {
    var blocks := fg.CalcUsedBlocks();
    ghost var es, inSig, outSig := fg.edges, fg.inSig, fg.outSig;
    for i := 0 to |blocks|
      invariant AllAgree(es, inSig, outSig, topology, blocks[..i])
    {
      var valid := ValidateBlock(fg, topology, blocks[i]);
      if !valid {
        SomeDisagrees(es, inSig, outSig, topology, blocks, i);
        return false;
      }
      assert blocks[..i + 1] == blocks[..i] + [blocks[i]];
    }
    assert blocks[..|blocks|] == blocks;
    ok := true;
  }
}

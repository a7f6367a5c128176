/**
 Flattening a tree of hierarchical blocks into a flat flowgraph of primitive blocks. A port of a
 hierarchical block stands for what it is wired to inside, all the way down to primitives.
 */
module Hierarchy {
  import Graphs
  import opened Flowgraph

  /**
   A block of the tree. A hierarchical block wires each of its inputs to a list of endpoints
   inside, each of its outputs to at most one, has edges and unconnected blocks of its own, and
   blocks at the ends of its message edges.
   */
  datatype Node =
    | Prim(id: nat)
    | Hier(id: nat, inputs: seq<Fan>, outputs: seq<Wire>, edges: seq<Link>, singles: seq<Node>, messaged: seq<Node>)

  datatype End = End(block: Node, port: int)

  /** What an input is wired to, in the order it was connected. */
  datatype Fan = Fan(ends: seq<End>)

  datatype Wire = Unwired | Wire(end: End)

  datatype Link = Link(src: End, dst: End)

  datatype Resolved = Ends(ends: seq<End>) | Unresolved

  // ------------------------------------------------------------------------------------
  // Resolution
  // ------------------------------------------------------------------------------------

  function ResolvePort(h: Node, port: int, isInput: bool): Resolved
    requires h.Hier?
    decreases h, 0
  {
    if isInput then
      if port < 0 || port >= |h.inputs| || h.inputs[port].ends == [] then Unresolved
      else ResolveFan(h.inputs[port], 0)
    else
      if port < 0 || port >= |h.outputs| || h.outputs[port].Unwired? then Unresolved
      else ResolveEndpoint(h.outputs[port].end, isInput)
  }

  function ResolveEndpoint(e: End, isInput: bool): Resolved
    decreases e, 0
  {
    if e.block.Prim? then Ends([e]) else ResolvePort(e.block, e.port, isInput)
  }

  /** The wires of an input from the i-th on, one after the other. */
  function ResolveFan(fan: Fan, i: nat): Resolved
    requires i <= |fan.ends|
    decreases fan, |fan.ends| - i
  {
    if i == |fan.ends| then Ends([])
    else
      var first := ResolveEndpoint(fan.ends[i], true);
      var rest := ResolveFan(fan, i + 1);
      if first.Unresolved? || rest.Unresolved? then Unresolved else Ends(first.ends + rest.ends)
  }

  // ------------------------------------------------------------------------------------
  // What resolution means
  // ------------------------------------------------------------------------------------

  /** f is what e's port is wired to, one level further in. */
  predicate Inside(e: End, isInput: bool, f: End) {
    e.block.Hier? &&
    if isInput then 0 <= e.port < |e.block.inputs| && f in e.block.inputs[e.port].ends
    else 0 <= e.port < |e.block.outputs| && e.block.outputs[e.port] == Wire(f)
  }

  ghost predicate Descent(p: seq<End>, isInput: bool) {
    p != [] && forall k :: 0 <= k < |p| - 1 ==> Inside(p[k], isInput, p[k + 1])
  }

  ghost predicate DescentTo(p: seq<End>, e: End, q: End, isInput: bool) {
    Descent(p, isInput) && p[0] == e && p[|p| - 1] == q
  }

  /** The port e stands for the primitive port q. */
  ghost predicate Reaches(e: End, q: End, isInput: bool) {
    q.block.Prim? && exists p :: DescentTo(p, e, q, isInput)
  }

  /** A port of a hierarchical block that does not exist or is wired to nothing. */
  predicate Loose(e: End, isInput: bool) {
    e.block.Hier? &&
    if isInput then e.port < 0 || e.port >= |e.block.inputs| || e.block.inputs[e.port].ends == []
    else e.port < 0 || e.port >= |e.block.outputs| || e.block.outputs[e.port].Unwired?
  }

  ghost predicate ReachesLoose(e: End, isInput: bool) {
    exists q, p :: Loose(q, isInput) && DescentTo(p, e, q, isInput)
  }

  lemma DescentStep(e: End, q: End, isInput: bool)
    ensures (exists p :: DescentTo(p, e, q, isInput)) <==>
            e == q || exists f :: Inside(e, isInput, f) && exists p :: DescentTo(p, f, q, isInput)
  {
    if p :| DescentTo(p, e, q, isInput) {
      if |p| > 1 {
        var t := p[1..];
        assert Inside(p[0], isInput, p[1]);
        forall k | 0 <= k < |t| - 1 ensures Inside(t[k], isInput, t[k + 1]) {
          assert Inside(p[k + 1], isInput, p[k + 2]);
        }
        assert DescentTo(t, p[1], q, isInput);
      }
    }
    if e == q {
      assert DescentTo([e], e, q, isInput);
    }
    if f, p :| Inside(e, isInput, f) && DescentTo(p, f, q, isInput) {
      var t := [e] + p;
      forall k | 0 <= k < |t| - 1 ensures Inside(t[k], isInput, t[k + 1]) {
        if k > 0 {
          assert Inside(p[k - 1], isInput, p[k]);
        }
      }
      assert DescentTo(t, e, q, isInput);
    }
  }

  lemma ReachesStep(e: End, q: End, isInput: bool)
    ensures Reaches(e, q, isInput) <==>
            (q.block.Prim? && e == q) || exists f :: Inside(e, isInput, f) && Reaches(f, q, isInput)
  {
    DescentStep(e, q, isInput);
    if Reaches(e, q, isInput) && e != q {
      var f, p :| Inside(e, isInput, f) && DescentTo(p, f, q, isInput);
      assert Reaches(f, q, isInput);
    }
  }

  lemma ReachesLooseStep(e: End, isInput: bool)
    ensures ReachesLoose(e, isInput) <==>
            Loose(e, isInput) || exists f :: Inside(e, isInput, f) && ReachesLoose(f, isInput)
  {
    if ReachesLoose(e, isInput) && !Loose(e, isInput) {
      var q, p :| Loose(q, isInput) && DescentTo(p, e, q, isInput);
      DescentStep(e, q, isInput);
      var f, t :| Inside(e, isInput, f) && DescentTo(t, f, q, isInput);
      assert ReachesLoose(f, isInput);
    }
    if Loose(e, isInput) {
      assert DescentTo([e], e, e, isInput);
    }
    if f :| Inside(e, isInput, f) && ReachesLoose(f, isInput) {
      var q, p :| Loose(q, isInput) && DescentTo(p, f, q, isInput);
      DescentStep(e, q, isInput);
    }
  }

  ghost predicate Resolves(e: End, isInput: bool, r: Resolved) {
    && (r.Unresolved? <==> ReachesLoose(e, isInput))
    && (r.Ends? ==> r.ends != [] && forall q :: q in r.ends <==> Reaches(e, q, isInput))
  }

  /**
   An endpoint resolves unless it leads to a loose port, and then to exactly the primitive ports it
   stands for.
   */
  lemma {:induction false} ResolutionIsReachability(e: End, isInput: bool)
    ensures Resolves(e, isInput, ResolveEndpoint(e, isInput))
    decreases e, 0
  {
    ReachesLooseStep(e, isInput);
    if e.block.Prim? {
      forall q ensures q in [e] <==> Reaches(e, q, isInput) {
        ReachesStep(e, q, isInput);
      }
    } else if !Loose(e, isInput) {
      if isInput {
        FanIsReachability(e.block.inputs[e.port], 0);
      } else {
        ResolutionIsReachability(e.block.outputs[e.port].end, false);
      }
      forall q ensures Reaches(e, q, isInput) <==> exists f :: Inside(e, isInput, f) && Reaches(f, q, isInput) {
        ReachesStep(e, q, isInput);
      }
    }
  }

  lemma {:induction false} FanIsReachability(fan: Fan, i: nat)
    requires i <= |fan.ends|
    ensures var r := ResolveFan(fan, i);
      && (r.Unresolved? <==> exists j :: i <= j < |fan.ends| && ReachesLoose(fan.ends[j], true))
      && (r.Ends? ==>
            && (i < |fan.ends| ==> r.ends != [])
            && forall q :: q in r.ends <==> exists j :: i <= j < |fan.ends| && Reaches(fan.ends[j], q, true))
    decreases fan, |fan.ends| - i
  {
    if i < |fan.ends| {
      ResolutionIsReachability(fan.ends[i], true);
      FanIsReachability(fan, i + 1);
    }
  }

  /** An output port stands for exactly one primitive port. */
  lemma {:induction false} OutputHasOneSource(e: End)
    ensures ResolveEndpoint(e, false).Ends? ==> |ResolveEndpoint(e, false).ends| == 1
    decreases e
  {
    if e.block.Hier? && !Loose(e, false) {
      OutputHasOneSource(e.block.outputs[e.port].end);
    }
  }

  // ------------------------------------------------------------------------------------
  // Flattening
  // ------------------------------------------------------------------------------------

  /** The blocks used in edges, message edges, inputs, outputs, or by themselves. */
  function Children(h: Node): set<Node>
    requires h.Hier?
  {
    (set l | l in h.edges :: l.src.block) + (set l | l in h.edges :: l.dst.block) +
    (set s | s in h.singles) + (set m | m in h.messaged) +
    (set fan, e | fan in h.inputs && e in fan.ends :: e.block) +
    (set w | w in h.outputs && w.Wire? :: w.end.block)
  }

  lemma ChildIsSmaller(h: Node, c: Node)
    requires h.Hier? && c in Children(h)
    ensures c < h
  {
    if l :| l in h.edges && l.src.block == c {
    } else if l :| l in h.edges && l.dst.block == c {
    } else if fan, e :| fan in h.inputs && e in fan.ends && e.block == c {
      assert (fan decreases to e);
    } else if w :| w in h.outputs && w.Wire? && w.end.block == c {
    }
  }

  /** h has c at an end of an edge or inside a port, or holds it by itself or for its messages. */
  predicate Uses(h: Node, c: Node)
    requires h.Hier?
  {
    || (exists l :: l in h.edges && (l.src.block == c || l.dst.block == c))
    || (exists fan, e :: fan in h.inputs && e in fan.ends && e.block == c)
    || (exists w :: w in h.outputs && w.Wire? && w.end.block == c)
    || c in h.singles || c in h.messaged
  }

  /** The flattening visits exactly the blocks that are used. */
  lemma ChildrenAreUsed(h: Node, c: Node)
    requires h.Hier?
    ensures c in Children(h) <==> Uses(h, c)
  {
  }

  ghost predicate Lineage(l: seq<Node>, h: Node, g: Node) {
    && l != [] && l[0] == h && l[|l| - 1] == g
    && forall k :: 0 <= k < |l| - 1 ==> l[k].Hier? && Uses(l[k], l[k + 1])
  }

  /** g is h or somewhere inside it. */
  ghost predicate InTree(h: Node, g: Node) {
    exists l :: Lineage(l, h, g)
  }

  lemma InTreeStep(h: Node, g: Node)
    ensures InTree(h, g) <==> h == g || (h.Hier? && exists c :: Uses(h, c) && InTree(c, g))
  {
    if l: seq<Node> :| Lineage(l, h, g) {
      if |l| > 1 {
        var t := l[1..];
        assert l[0].Hier? && Uses(l[0], l[1]);
        forall k | 0 <= k < |t| - 1 ensures t[k].Hier? && Uses(t[k], t[k + 1]) {
          assert l[k + 1].Hier? && Uses(l[k + 1], l[k + 2]);
        }
        assert Lineage(t, l[1], g);
      }
    }
    if h == g {
      assert Lineage([h], h, g);
    }
    if h.Hier? {
      if c :| Uses(h, c) && InTree(c, g) {
        var l: seq<Node> :| Lineage(l, c, g);
        var t := [h] + l;
        forall k | 0 <= k < |t| - 1 ensures t[k].Hier? && Uses(t[k], t[k + 1]) {
          if k > 0 {
            assert l[k - 1].Hier? && Uses(l[k - 1], l[k]);
          }
        }
        assert Lineage(t, h, g);
      }
    }
  }

  /** A primitive block that a port stands for is somewhere inside the port's block. */
  lemma {:induction false} ReachedIsInTree(e: End, q: End, isInput: bool)
    requires Reaches(e, q, isInput)
    ensures InTree(e.block, q.block)
    decreases e.block
  {
    ReachesStep(e, q, isInput);
    InTreeStep(e.block, q.block);
    if e != q {
      var f :| Inside(e, isInput, f) && Reaches(f, q, isInput);
      InsideIsUsed(e, isInput, f);
      ChildrenAreUsed(e.block, f.block);
      ChildIsSmaller(e.block, f.block);
      ReachedIsInTree(f, q, isInput);
    }
  }

  lemma InsideIsUsed(e: End, isInput: bool, f: End)
    requires Inside(e, isInput, f)
    ensures Uses(e.block, f.block)
  {
    if isInput {
      assert e.block.inputs[e.port] in e.block.inputs;
    } else {
      assert e.block.outputs[e.port] in e.block.outputs;
    }
  }

  /** Up through outputs from p, across one edge somewhere in the tree, down through inputs to q. */
  ghost predicate FlatPath(h: Node, p: End, q: End) {
    exists g, l :: InTree(h, g) && g.Hier? && l in g.edges && Reaches(l.src, p, false) && Reaches(l.dst, q, true)
  }

  function Flat(e: End): Graphs.Endpoint
  {
    Graphs.Endpoint(e.block.id, e.port)
  }

  ghost predicate FlatEdge(h: Node, x: Graphs.Edge) {
    exists p, q :: FlatPath(h, p, q) && Names(x.src, p) && Names(x.dst, q)
  }

  /** The endpoint of the flat graph that names a primitive port. */
  predicate Names(x: Graphs.Endpoint, e: End) {
    x.block == e.block.id && x.port == e.port
  }

  /** The flat edges that one edge of a block stands for. */
  ghost predicate FromLink(l: Link, x: Graphs.Edge) {
    exists p, q :: Reaches(l.src, p, false) && Reaches(l.dst, q, true) && x == Graphs.Edge(Flat(p), Flat(q))
  }

  ghost predicate FromLinks(h: Node, x: Graphs.Edge)
    requires h.Hier?
  {
    exists l :: l in h.edges && FromLink(l, x)
  }

  lemma FlatEdgeStep(h: Node, x: Graphs.Edge)
    requires h.Hier?
    ensures FlatEdge(h, x) <==> FromLinks(h, x) || exists c :: c in Children(h) && FlatEdge(c, x)
  {
    if p, q :| FlatPath(h, p, q) && Names(x.src, p) && Names(x.dst, q) {
      var g, l :| InTree(h, g) && g.Hier? && l in g.edges && Reaches(l.src, p, false) && Reaches(l.dst, q, true);
      InTreeStep(h, g);
      if h == g {
        assert FromLink(l, x);
      } else {
        var c :| Uses(h, c) && InTree(c, g);
        ChildrenAreUsed(h, c);
        assert FlatPath(c, p, q);
      }
    }
    if l :| l in h.edges && FromLink(l, x) {
      var p, q :| Reaches(l.src, p, false) && Reaches(l.dst, q, true) && x == Graphs.Edge(Flat(p), Flat(q));
      InTreeStep(h, h);
      assert FlatPath(h, p, q);
    }
    if c :| c in Children(h) && FlatEdge(c, x) {
      ChildrenAreUsed(h, c);
      var p, q :| FlatPath(c, p, q) && Names(x.src, p) && Names(x.dst, q);
      var g, l :| InTree(c, g) && g.Hier? && l in g.edges && Reaches(l.src, p, false) && Reaches(l.dst, q, true);
      InTreeStep(h, g);
      assert FlatPath(h, p, q);
    }
  }

  lemma PrimitiveHasNoEdges(h: Node, x: Graphs.Edge)
    requires h.Prim?
    ensures !FlatEdge(h, x)
  {
    if p, q :| FlatPath(h, p, q) && Names(x.src, p) && Names(x.dst, q) {
      var g, l :| InTree(h, g) && g.Hier? && l in g.edges && Reaches(l.src, p, false) && Reaches(l.dst, q, true);
      InTreeStep(h, g);
    }
  }

  /** The ports exist and the item sizes agree. */
  ghost predicate Fits(sfg: FlowgraphObject, x: Graphs.Edge) {
    && ValidPort(sfg.outSig(x.src.block), x.src.port) && ValidPort(sfg.inSig(x.dst.block), x.dst.port)
    && sfg.outSig(x.src.block).itemSize(x.src.port) == sfg.inSig(x.dst.block).itemSize(x.dst.port)
  }

  /** A block with an input or output wired to nothing, or with an edge that leads to a loose port. */
  ghost predicate LooseBlock(g: Node) {
    g.Hier? &&
    (|| (exists i :: 0 <= i < |g.inputs| && g.inputs[i].ends == [])
     || (exists i :: 0 <= i < |g.outputs| && g.outputs[i].Unwired?)
     || (exists l :: l in g.edges && LooseLink(l)))
  }

  ghost predicate LooseLink(l: Link) {
    ReachesLoose(l.src, false) || ReachesLoose(l.dst, true)
  }

  ghost predicate LooseWithin(h: Node) {
    exists g :: InTree(h, g) && LooseBlock(g)
  }

  lemma LooseWithinStep(h: Node)
    requires h.Hier?
    ensures LooseWithin(h) <==> LooseBlock(h) || exists c :: c in Children(h) && LooseWithin(c)
  {
    if g :| InTree(h, g) && LooseBlock(g) {
      InTreeStep(h, g);
      if h != g {
        var c :| Uses(h, c) && InTree(c, g);
        ChildrenAreUsed(h, c);
        assert LooseWithin(c);
      }
    }
    if LooseBlock(h) {
      InTreeStep(h, h);
    }
    if c :| c in Children(h) && LooseWithin(c) {
      ChildrenAreUsed(h, c);
      var g :| InTree(c, g) && LooseBlock(g);
      InTreeStep(h, g);
    }
  }

  /** Whatever c stands for, h stands for, and what is loose in c is loose in h. */
  ghost predicate Within(h: Node, c: Node) {
    (forall x :: FlatEdge(c, x) ==> FlatEdge(h, x)) && (LooseWithin(c) ==> LooseWithin(h))
  }

  lemma UsedIsWithin(h: Node, c: Node)
    requires h.Hier? && Uses(h, c)
    ensures Within(h, c)
  {
    ChildrenAreUsed(h, c);
    LooseWithinStep(h);
    forall x | FlatEdge(c, x) ensures FlatEdge(h, x) {
      FlatEdgeStep(h, x);
    }
  }

  /** The blocks at its edges, behind its inputs and outputs, and those it holds apart are part of a block. */
  lemma PartsAreWithin(h: Node)
    requires h.Hier?
    ensures forall l :: l in h.edges ==> Within(h, l.src.block) && Within(h, l.dst.block)
    ensures forall i, j :: 0 <= i < |h.inputs| && 0 <= j < |h.inputs[i].ends| ==> Within(h, h.inputs[i].ends[j].block)
    ensures forall o :: 0 <= o < |h.outputs| && h.outputs[o].Wire? ==> Within(h, h.outputs[o].end.block)
    ensures forall c :: c in h.singles || c in h.messaged ==> Within(h, c)
  {
    forall c | Uses(h, c) ensures Within(h, c) {
      UsedIsWithin(h, c);
    }
    forall i, j | 0 <= i < |h.inputs| && 0 <= j < |h.inputs[i].ends| ensures Uses(h, h.inputs[i].ends[j].block) {
      assert h.inputs[i] in h.inputs && h.inputs[i].ends[j] in h.inputs[i].ends;
    }
    forall o | 0 <= o < |h.outputs| && h.outputs[o].Wire? ensures Uses(h, h.outputs[o].end.block) {
      assert h.outputs[o] in h.outputs;
    }
  }

  lemma PrimitiveIsNotLoose(h: Node)
    requires h.Prim?
    ensures !LooseWithin(h)
  {
    if g :| InTree(h, g) && LooseBlock(g) {
      InTreeStep(h, g);
    }
  }

  // ------------------------------------------------------------------------------------
  // What is driven
  // ------------------------------------------------------------------------------------

  /** The destinations of a list of edges, as often as they are driven. */
  function Dsts(es: seq<Graphs.Edge>): multiset<Graphs.Endpoint> {
    multiset(seq(|es|, i requires 0 <= i < |es| => es[i].dst))
  }

  lemma DstsGrow(es: seq<Graphs.Edge>, x: Graphs.Edge)
    ensures Dsts(es + [x]) == Dsts(es) + multiset{x.dst}
    ensures DstUsed(es, x.dst) <==> Dsts(es)[x.dst] > 0
  {
    var ds := seq(|es|, i requires 0 <= i < |es| => es[i].dst);
    var more := seq(|es + [x]|, i requires 0 <= i < |es + [x]| => (es + [x])[i].dst);
    assert more == ds + [x.dst];
    if Dsts(es)[x.dst] > 0 {
      assert x.dst in ds;
    }
    if e :| e in es && e.dst == x.dst {
      var k :| 0 <= k < |es| && es[k] == e;
      assert ds[k] == x.dst;
    }
  }

  function FlatAll(ds: seq<End>): seq<Graphs.Endpoint> {
    seq(|ds|, i requires 0 <= i < |ds| => Flat(ds[i]))
  }

  /** What one edge drives: every primitive destination, by its one primitive source. */
  ghost function LinkDrives(l: Link): multiset<Graphs.Endpoint> {
    if LooseLink(l) then multiset{}
    else
      ResolutionIsReachability(l.dst, true);
      multiset(FlatAll(ResolveEndpoint(l.dst, true).ends))
  }

  ghost function LinksDrive(ls: seq<Link>): multiset<Graphs.Endpoint> {
    if ls == [] then multiset{} else LinksDrive(ls[..|ls| - 1]) + LinkDrives(ls[|ls| - 1])
  }

  /** What a block drives: the destinations across its own edges and across those of everything inside. */
  ghost function Drives(h: Node): multiset<Graphs.Endpoint>
    decreases h, 0
  {
    if h.Prim? then multiset{} else LinksDrive(h.edges) + ChildrenDrive(h, Children(h))
  }

  ghost function ChildrenDrive(h: Node, cs: set<Node>): multiset<Graphs.Endpoint>
    requires h.Hier? && cs <= Children(h)
    decreases h, 0, |cs|
  {
    if cs == {} then multiset{}
    else
      var c :| c in cs;
      ChildIsSmaller(h, c);
      Drives(c) + ChildrenDrive(h, cs - {c})
  }

  /** Whichever child is taken out, the rest adds up. */
  lemma {:induction false} AnyChildFirst(h: Node, cs: set<Node>, c: Node)
    requires h.Hier? && cs <= Children(h) && c in cs
    ensures ChildrenDrive(h, cs) == Drives(c) + ChildrenDrive(h, cs - {c})
    decreases |cs|
  {
    var d :| d in cs && ChildrenDrive(h, cs) == Drives(d) + ChildrenDrive(h, cs - {d});
    if d != c {
      AnyChildFirst(h, cs - {d}, c);
      AnyChildFirst(h, cs - {c}, d);
      assert cs - {d} - {c} == cs - {c} - {d};
    }
  }

  lemma LinkDriven(l: Link, d: Graphs.Endpoint)
    requires !LooseLink(l)
    ensures d in LinkDrives(l) <==> exists x :: FromLink(l, x) && x.dst == d
  {
    ResolutionIsReachability(l.src, false);
    ResolutionIsReachability(l.dst, true);
    var srcs, dsts := ResolveEndpoint(l.src, false).ends, ResolveEndpoint(l.dst, true).ends;
    if d in LinkDrives(l) {
      assert d in FlatAll(dsts);
      var i :| 0 <= i < |dsts| && Flat(dsts[i]) == d;
      assert FromLink(l, Graphs.Edge(Flat(srcs[0]), d)) by {
        assert Reaches(l.src, srcs[0], false) && Reaches(l.dst, dsts[i], true);
      }
    }
    if x :| FromLink(l, x) && x.dst == d {
      var p, q :| Reaches(l.src, p, false) && Reaches(l.dst, q, true) && x == Graphs.Edge(Flat(p), Flat(q));
      var i :| 0 <= i < |dsts| && dsts[i] == q;
      assert FlatAll(dsts)[i] == d;
    }
  }

  lemma {:induction false} LinksDriven(ls: seq<Link>, d: Graphs.Endpoint)
    requires forall l :: l in ls ==> !LooseLink(l)
    ensures d in LinksDrive(ls) <==> exists l, x :: l in ls && FromLink(l, x) && x.dst == d
  {
    if ls != [] {
      var rest, last := ls[..|ls| - 1], ls[|ls| - 1];
      assert ls == rest + [last];
      LinksDriven(rest, d);
      LinkDriven(last, d);
    }
  }

  /** In a tree with nothing loose, exactly the ends of its paths are driven. */
  lemma {:induction false} DrivenExactlyWhen(h: Node, d: Graphs.Endpoint)
    requires !LooseWithin(h)
    ensures d in Drives(h) <==> exists x :: FlatEdge(h, x) && x.dst == d
    decreases h, 0
  {
    if h.Prim? {
      forall x ensures !FlatEdge(h, x) {
        PrimitiveHasNoEdges(h, x);
      }
    } else {
      LooseWithinStep(h);
      LinksDriven(h.edges, d);
      ChildrenDriven(h, Children(h), d);
      forall x ensures FlatEdge(h, x) <==> FromLinks(h, x) || exists c :: c in Children(h) && FlatEdge(c, x) {
        FlatEdgeStep(h, x);
      }
    }
  }

  lemma {:induction false} ChildrenDriven(h: Node, cs: set<Node>, d: Graphs.Endpoint)
    requires h.Hier? && cs <= Children(h) && forall c :: c in cs ==> !LooseWithin(c)
    ensures d in ChildrenDrive(h, cs) <==> exists c, x :: c in cs && FlatEdge(c, x) && x.dst == d
    decreases h, 0, |cs|
  {
    if cs != {} {
      var c :| c in cs;
      ChildIsSmaller(h, c);
      AnyChildFirst(h, cs, c);
      DrivenExactlyWhen(c, d);
      ChildrenDriven(h, cs - {c}, d);
    }
  }

  /** Everything newly driven is driven once, also counting what was driven before. */
  ghost predicate Single(before: seq<Graphs.Edge>, drives: multiset<Graphs.Endpoint>) {
    forall d :: d in drives ==> (Dsts(before) + drives)[d] == 1
  }

  /** Driving a, and then b, once is driving both together once. */
  lemma SingleSplits(before: seq<Graphs.Edge>, after: seq<Graphs.Edge>, a: multiset<Graphs.Endpoint>,
                     b: multiset<Graphs.Endpoint>)
    ensures Single(before, a + b) ==> Single(before, a)
    ensures Dsts(after) == Dsts(before) + a ==> (Single(before, a + b) <==> Single(before, a) && Single(after, b))
  {
    if Single(before, a + b) {
      forall d | d in a ensures (Dsts(before) + a)[d] == 1 {
        assert d in a + b;
      }
    }
    if Dsts(after) == Dsts(before) + a {
      if Single(before, a + b) {
        forall d | d in b ensures (Dsts(after) + b)[d] == 1 {
          assert d in a + b;
        }
      }
      if Single(before, a) && Single(after, b) {
        forall d | d in a + b ensures (Dsts(before) + (a + b))[d] == 1 {
          if d in b {
            assert (Dsts(after) + b)[d] == 1;
          } else {
            assert (Dsts(before) + a)[d] == 1;
          }
        }
      }
    }
  }

  lemma LinksDriveMore(ls: seq<Link>, k: nat)
    requires k < |ls|
    ensures LinksDrive(ls[..k + 1]) == LinksDrive(ls[..k]) + LinkDrives(ls[k])
  {
    assert ls[..k + 1][..k] == ls[..k] && ls[..k + 1][k] == ls[k];
  }

  lemma {:induction false} LinksDriveRest(ls: seq<Link>, k: nat) returns (rest: multiset<Graphs.Endpoint>)
    requires k <= |ls|
    ensures LinksDrive(ls) == LinksDrive(ls[..k]) + rest
    decreases |ls| - k
  {
    if k == |ls| {
      assert ls[..k] == ls;
      rest := multiset{};
    } else {
      LinksDriveMore(ls, k);
      var later := LinksDriveRest(ls, k + 1);
      rest := LinkDrives(ls[k]) + later;
    }
  }

  /** The edge leads to no loose port, its paths fit, and it drives nothing twice. */
  ghost predicate LinkFlattens(l: Link, sfg: FlowgraphObject, before: seq<Graphs.Edge>) {
    !LooseLink(l) && (forall x :: FromLink(l, x) ==> Fits(sfg, x)) && Single(before, LinkDrives(l))
  }

  /** Connects every primitive source of an edge to every primitive destination. */
  method FlattenLink(l: Link, sfg: FlowgraphObject) returns (ok: bool)
    modifies sfg`edges
    ensures old(EdgesOk(sfg.edges)) ==> EdgesOk(sfg.edges)
    ensures ok ==> forall x :: x in sfg.edges <==> x in old(sfg.edges) || FromLink(l, x)
    ensures ok ==> Dsts(sfg.edges) == old(Dsts(sfg.edges)) + LinkDrives(l)
    ensures ok <==> LinkFlattens(l, sfg, old(sfg.edges))
  {
    var srcs, dsts := ResolveEndpoint(l.src, false), ResolveEndpoint(l.dst, true);
    ResolutionIsReachability(l.src, false);
    ResolutionIsReachability(l.dst, true);
    OutputHasOneSource(l.src);
    if srcs.Unresolved? || dsts.Unresolved? {
      return false;
    }
    forall x ensures FromLink(l, x) <==> Crossed(srcs.ends, dsts.ends, x) {
    }
    for i := 0 to |srcs.ends|
      invariant old(EdgesOk(sfg.edges)) ==> EdgesOk(sfg.edges)
      invariant i == 0 ==> sfg.edges == old(sfg.edges)
      invariant i == 1 ==> Driven(sfg, old(sfg.edges), sfg.edges, srcs.ends[0], dsts.ends, |dsts.ends|)
    {
      assert dsts.ends[..0] == [] && FlatAll([]) == [];
      for j := 0 to |dsts.ends|
        invariant old(EdgesOk(sfg.edges)) ==> EdgesOk(sfg.edges)
        invariant Driven(sfg, old(sfg.edges), sfg.edges, srcs.ends[i], dsts.ends, j)
      {
        ghost var before := sfg.edges;
        var r := sfg.Connect(Flat(srcs.ends[i]), Flat(dsts.ends[j]));
        if r != Added {
          NotDriven(sfg, old(sfg.edges), before, srcs.ends[i], dsts.ends, j);
          assert Crossed(srcs.ends, dsts.ends, Graphs.Edge(Flat(srcs.ends[i]), Flat(dsts.ends[j])));
          return false;
        }
        DrivenFurther(sfg, old(sfg.edges), before, srcs.ends[i], dsts.ends, j);
      }
    }
    assert dsts.ends[..|dsts.ends|] == dsts.ends && srcs.ends == [srcs.ends[0]];
    ok := true;
  }

  /** The first j destinations are connected to s. */
  ghost predicate Driven(sfg: FlowgraphObject, before: seq<Graphs.Edge>, now: seq<Graphs.Edge>, s: End, ds: seq<End>,
                         j: nat)
  {
    && j <= |ds|
    && (forall x :: x in now <==> x in before || Crossed([s], ds[..j], x))
    && (forall x :: Crossed([s], ds[..j], x) ==> Fits(sfg, x))
    && Dsts(now) == Dsts(before) + multiset(FlatAll(ds[..j]))
    && Single(before, multiset(FlatAll(ds[..j])))
  }

  lemma DrivenFurther(sfg: FlowgraphObject, before: seq<Graphs.Edge>, now: seq<Graphs.Edge>, s: End, ds: seq<End>,
                      j: nat)
    requires j < |ds| && Driven(sfg, before, now, s, ds, j)
    requires var x := Graphs.Edge(Flat(s), Flat(ds[j])); Fits(sfg, x) && !DstUsed(now, x.dst)
    ensures Driven(sfg, before, now + [Graphs.Edge(Flat(s), Flat(ds[j]))], s, ds, j + 1)
  {
    var x := Graphs.Edge(Flat(s), Flat(ds[j]));
    CrossedLast(s, ds, j);
    DstsGrow(now, x);
    assert FlatAll(ds[..j + 1]) == FlatAll(ds[..j]) + [x.dst];
    SingleSplits(before, now, multiset(FlatAll(ds[..j])), multiset{x.dst});
  }

  /** A destination that is in use when its turn comes is driven twice in all. */
  lemma NotDriven(sfg: FlowgraphObject, before: seq<Graphs.Edge>, now: seq<Graphs.Edge>, s: End, ds: seq<End>, j: nat)
    requires j < |ds| && Driven(sfg, before, now, s, ds, j)
    ensures DstUsed(now, Flat(ds[j])) ==> !Single(before, multiset(FlatAll(ds)))
  {
    var x := Graphs.Edge(Flat(s), Flat(ds[j]));
    DstsGrow(now, x);
    assert FlatAll(ds) == FlatAll(ds[..j]) + [x.dst] + FlatAll(ds[j + 1..]);
    assert multiset(FlatAll(ds)) == multiset(FlatAll(ds[..j])) + multiset{x.dst} + multiset(FlatAll(ds[j + 1..]));
    if DstUsed(now, x.dst) {
      assert x.dst in multiset(FlatAll(ds));
      assert (Dsts(before) + multiset(FlatAll(ds)))[x.dst] >= 2;
    }
  }

  ghost predicate Crossed(ss: seq<End>, ds: seq<End>, x: Graphs.Edge) {
    exists p, q :: p in ss && q in ds && x == Graphs.Edge(Flat(p), Flat(q))
  }

  lemma CrossedLast(s: End, ds: seq<End>, j: nat)
    requires j < |ds|
    ensures forall x :: Crossed([s], ds[..j + 1], x) <==>
              Crossed([s], ds[..j], x) || x == Graphs.Edge(Flat(s), Flat(ds[j]))
  {
    assert ds[..j + 1] == ds[..j] + [ds[j]];
    assert s in [s] && ds[j] in ds[..j + 1];
    assert Crossed([s], ds[..j + 1], Graphs.Edge(Flat(s), Flat(ds[j])));
  }

  // ------------------------------------------------------------------------------------
  // The whole tree
  // ------------------------------------------------------------------------------------

  /** Nothing inside is loose, every path fits, and nothing is driven twice. */
  ghost predicate Flattens(h: Node, sfg: FlowgraphObject, before: seq<Graphs.Edge>) {
    !LooseWithin(h) && (forall x :: FlatEdge(h, x) ==> Fits(sfg, x)) && Single(before, Drives(h))
  }

  /** After the first k of a block's own edges. */
  ghost predicate LinksDone(h: Node, sfg: FlowgraphObject, before: seq<Graphs.Edge>, now: seq<Graphs.Edge>, k: nat)
    requires h.Hier? && k <= |h.edges|
  {
    && (forall x :: x in now <==> x in before || exists j :: 0 <= j < k && FromLink(h.edges[j], x))
    && (forall j :: 0 <= j < k ==> !LooseLink(h.edges[j]) && forall x :: FromLink(h.edges[j], x) ==> Fits(sfg, x))
    && Dsts(now) == Dsts(before) + LinksDrive(h.edges[..k]) && Single(before, LinksDrive(h.edges[..k]))
  }

  lemma LinkStops(h: Node, sfg: FlowgraphObject, before: seq<Graphs.Edge>, now: seq<Graphs.Edge>, k: nat)
    requires h.Hier? && k < |h.edges| && LinksDone(h, sfg, before, now, k)
    requires !LinkFlattens(h.edges[k], sfg, now)
    ensures !Flattens(h, sfg, before)
  {
    var l := h.edges[k];
    assert l in h.edges;
    LooseWithinStep(h);
    if x :| FromLink(l, x) && !Fits(sfg, x) {
      FlatEdgeStep(h, x);
    }
    LinksDriveMore(h.edges, k);
    SingleSplits(before, now, LinksDrive(h.edges[..k]), LinkDrives(l));
    var rest := LinksDriveRest(h.edges, k + 1);
    SingleSplits(before, now, LinksDrive(h.edges[..k + 1]), rest + ChildrenDrive(h, Children(h)));
    assert Drives(h) == LinksDrive(h.edges[..k + 1]) + (rest + ChildrenDrive(h, Children(h)));
  }

  lemma LinkDone(h: Node, sfg: FlowgraphObject, before: seq<Graphs.Edge>, mid: seq<Graphs.Edge>, now: seq<Graphs.Edge>,
                 k: nat)
    requires h.Hier? && k < |h.edges| && LinksDone(h, sfg, before, mid, k) && LinkFlattens(h.edges[k], sfg, mid)
    requires forall x :: x in now <==> x in mid || FromLink(h.edges[k], x)
    requires Dsts(now) == Dsts(mid) + LinkDrives(h.edges[k])
    ensures LinksDone(h, sfg, before, now, k + 1)
  {
    LinksDriveMore(h.edges, k);
    SingleSplits(before, mid, LinksDrive(h.edges[..k]), LinkDrives(h.edges[k]));
  }

  lemma NoLinkDone(h: Node, sfg: FlowgraphObject, before: seq<Graphs.Edge>)
    requires h.Hier?
    ensures LinksDone(h, sfg, before, before, 0)
  {
    assert h.edges[..0] == [];
  }

  /** Connects the block's own edges, in order. */
  method FlattenLinks(h: Node, sfg: FlowgraphObject) returns (ok: bool)
    requires h.Hier?
    modifies sfg`edges
    ensures old(EdgesOk(sfg.edges)) ==> EdgesOk(sfg.edges)
    ensures ok ==> LinksDone(h, sfg, old(sfg.edges), sfg.edges, |h.edges|)
    ensures !ok ==> !Flattens(h, sfg, old(sfg.edges))
  {
    NoLinkDone(h, sfg, sfg.edges);
    for i := 0 to |h.edges|
      invariant old(EdgesOk(sfg.edges)) ==> EdgesOk(sfg.edges)
      invariant LinksDone(h, sfg, old(sfg.edges), sfg.edges, i)
    {
      ghost var mid := sfg.edges;
      var linked := FlattenLink(h.edges[i], sfg);
      if !linked {
        LinkStops(h, sfg, old(sfg.edges), mid, i);
        return false;
      }
      LinkDone(h, sfg, old(sfg.edges), mid, sfg.edges, i);
    }
    ok := true;
  }

  /**
   Adds the flat edges of h and of everything inside it. It returns exactly when nothing inside is
   wired to nothing or leads to a loose port, every path fits, and no destination is driven twice.
   */
  method FlattenAux(h: Node, sfg: FlowgraphObject) returns (ok: bool)
    requires h.Hier?
    modifies sfg`edges
    ensures old(EdgesOk(sfg.edges)) ==> EdgesOk(sfg.edges)
    ensures ok <==> Flattens(h, sfg, old(sfg.edges))
    ensures ok ==> forall x :: x in sfg.edges <==> x in old(sfg.edges) || FlatEdge(h, x)
    ensures ok ==> Dsts(sfg.edges) == old(Dsts(sfg.edges)) + Drives(h)
    decreases h, 1
  {
    ok := FlattenLinks(h, sfg);
    if !ok {
      return;
    }
    for i := 0 to |h.inputs|
      invariant forall port :: 0 <= port < i ==> h.inputs[port].ends != []
    {
      if h.inputs[i].ends == [] {
        UnwiredStops(h);
        return false;
      }
    }
    for i := 0 to |h.outputs|
      invariant forall port :: 0 <= port < i ==> !h.outputs[port].Unwired?
    {
      if h.outputs[i].Unwired? {
        UnwiredStops(h);
        return false;
      }
    }
    ghost var own := sfg.edges;
    ChildrenDecide(h, sfg, old(sfg.edges), own);
    ok := FlattenChildren(h, sfg);
    if ok {
      AllDone(h, sfg, old(sfg.edges), own, sfg.edges);
    }
  }

  ghost predicate NothingUnwired(h: Node)
    requires h.Hier?
  {
    && (forall i :: 0 <= i < |h.inputs| ==> h.inputs[i].ends != [])
    && (forall i :: 0 <= i < |h.outputs| ==> !h.outputs[i].Unwired?)
  }

  lemma UnwiredStops(h: Node)
    requires h.Hier? && !NothingUnwired(h)
    ensures LooseWithin(h)
  {
    LooseWithinStep(h);
  }

  /** Once a block's own edges are connected, it is up to the children. */
  lemma ChildrenDecide(h: Node, sfg: FlowgraphObject, before: seq<Graphs.Edge>, own: seq<Graphs.Edge>)
    requires h.Hier? && LinksDone(h, sfg, before, own, |h.edges|) && NothingUnwired(h)
    ensures Flattens(h, sfg, before) <==> ChildrenFlatten(h, sfg, own)
  {
    assert h.edges[..|h.edges|] == h.edges;
    SingleSplits(before, own, LinksDrive(h.edges), ChildrenDrive(h, Children(h)));
    LooseWithinStep(h);
    assert !LooseBlock(h) by {
      forall l | l in h.edges ensures !LooseLink(l) {
        var j :| 0 <= j < |h.edges| && h.edges[j] == l;
      }
    }
    forall x | FromLinks(h, x) ensures Fits(sfg, x) {
      var l :| l in h.edges && FromLink(l, x);
      var j :| 0 <= j < |h.edges| && h.edges[j] == l;
    }
    forall x ensures FlatEdge(h, x) <==> FromLinks(h, x) || exists c :: c in Children(h) && FlatEdge(c, x) {
      FlatEdgeStep(h, x);
    }
  }

  lemma AllDone(h: Node, sfg: FlowgraphObject, before: seq<Graphs.Edge>, own: seq<Graphs.Edge>, now: seq<Graphs.Edge>)
    requires h.Hier? && LinksDone(h, sfg, before, own, |h.edges|) && ChildrenDone(h, sfg, own, now, Children(h))
    ensures forall x :: x in now <==> x in before || FlatEdge(h, x)
    ensures Dsts(now) == Dsts(before) + Drives(h)
  {
    assert h.edges[..|h.edges|] == h.edges;
    forall x ensures x in now <==> x in before || FlatEdge(h, x) {
      FlatEdgeStep(h, x);
      if FromLinks(h, x) {
        var l :| l in h.edges && FromLink(l, x);
        var j :| 0 <= j < |h.edges| && h.edges[j] == l;
      }
      if j :| 0 <= j < |h.edges| && FromLink(h.edges[j], x) {
        assert h.edges[j] in h.edges;
      }
    }
  }

  /** The children in `gone` are flattened. */
  ghost predicate ChildrenDone(h: Node, sfg: FlowgraphObject, before: seq<Graphs.Edge>, now: seq<Graphs.Edge>,
                               gone: set<Node>)
    requires h.Hier? && gone <= Children(h)
  {
    && (forall x :: x in now <==> x in before || exists c :: c in gone && FlatEdge(c, x))
    && (forall c :: c in gone ==> !LooseWithin(c) && forall x :: FlatEdge(c, x) ==> Fits(sfg, x))
    && Dsts(now) == Dsts(before) + ChildrenDrive(h, gone) && Single(before, ChildrenDrive(h, gone))
  }

  ghost predicate ChildrenFlatten(h: Node, sfg: FlowgraphObject, before: seq<Graphs.Edge>)
    requires h.Hier?
  {
    && (forall c :: c in Children(h) ==> !LooseWithin(c) && forall x :: FlatEdge(c, x) ==> Fits(sfg, x))
    && Single(before, ChildrenDrive(h, Children(h)))
  }

  lemma {:induction false} ChildrenRest(h: Node, gone: set<Node>, all: set<Node>)
    returns (rest: multiset<Graphs.Endpoint>)
    requires h.Hier? && gone <= all <= Children(h)
    ensures ChildrenDrive(h, all) == ChildrenDrive(h, gone) + rest
    decreases |all - gone|
  {
    if all - gone == {} {
      assert gone == all;
      rest := multiset{};
    } else {
      var c :| c in all - gone;
      AnyChildFirst(h, all, c);
      var later := ChildrenRest(h, gone, all - {c});
      rest := Drives(c) + later;
    }
  }

  lemma ChildDone(h: Node, sfg: FlowgraphObject, before: seq<Graphs.Edge>, mid: seq<Graphs.Edge>, now: seq<Graphs.Edge>,
                  gone: set<Node>, c: Node)
    requires h.Hier? && gone <= Children(h) && c in Children(h) - gone && ChildrenDone(h, sfg, before, mid, gone)
    requires Flattens(c, sfg, mid) && (forall x :: x in now <==> x in mid || FlatEdge(c, x)) &&
             Dsts(now) == Dsts(mid) + Drives(c)
    ensures ChildrenDone(h, sfg, before, now, gone + {c})
  {
    AnyChildFirst(h, gone + {c}, c);
    assert gone + {c} - {c} == gone;
    SingleSplits(before, mid, ChildrenDrive(h, gone), Drives(c));
    assert ChildrenDrive(h, gone + {c}) == ChildrenDrive(h, gone) + Drives(c);
  }

  lemma ChildStops(h: Node, sfg: FlowgraphObject, before: seq<Graphs.Edge>, mid: seq<Graphs.Edge>, gone: set<Node>,
                   c: Node)
    requires h.Hier? && gone <= Children(h) && c in Children(h) - gone && ChildrenDone(h, sfg, before, mid, gone)
    requires !Flattens(c, sfg, mid)
    ensures !ChildrenFlatten(h, sfg, before)
  {
    AnyChildFirst(h, gone + {c}, c);
    assert gone + {c} - {c} == gone;
    SingleSplits(before, mid, ChildrenDrive(h, gone), Drives(c));
    assert ChildrenDrive(h, gone + {c}) == ChildrenDrive(h, gone) + Drives(c);
    var rest := ChildrenRest(h, gone + {c}, Children(h));
    SingleSplits(before, mid, ChildrenDrive(h, gone + {c}), rest);
  }

  lemma PrimitiveFlattens(c: Node, sfg: FlowgraphObject, before: seq<Graphs.Edge>)
    requires c.Prim?
    ensures Flattens(c, sfg, before) && Drives(c) == multiset{} && forall x :: !FlatEdge(c, x)
  {
    PrimitiveIsNotLoose(c);
    forall x ensures !FlatEdge(c, x) {
      PrimitiveHasNoEdges(c, x);
    }
  }

  /** Recurses into the hierarchical children, each once. */
  method FlattenChildren(h: Node, sfg: FlowgraphObject) returns (ok: bool)
    requires h.Hier?
    modifies sfg`edges
    ensures old(EdgesOk(sfg.edges)) ==> EdgesOk(sfg.edges)
    ensures ok <==> ChildrenFlatten(h, sfg, old(sfg.edges))
    ensures ok ==> ChildrenDone(h, sfg, old(sfg.edges), sfg.edges, Children(h))
    decreases h, 0
  {
    var todo := Children(h);
    ghost var gone := {};
    while todo != {}
      invariant todo + gone == Children(h) && todo !! gone
      invariant old(EdgesOk(sfg.edges)) ==> EdgesOk(sfg.edges)
      invariant ChildrenDone(h, sfg, old(sfg.edges), sfg.edges, gone)
      decreases todo
    {
      var c :| c in todo;
      todo := todo - {c};
      ghost var mid := sfg.edges;
      if c.Hier? {
        ChildIsSmaller(h, c);
        var sub := FlattenAux(c, sfg);
        if !sub {
          ChildStops(h, sfg, old(sfg.edges), mid, gone, c);
          return false;
        }
      } else {
        PrimitiveFlattens(c, sfg, mid);
      }
      ChildDone(h, sfg, old(sfg.edges), mid, sfg.edges, gone, c);
      gone := gone + {c};
    }
    ok := true;
  }

  /**
   Flattening a top block returns exactly when nothing in the tree is loose, every path fits and no
   destination is driven twice; then the flat graph holds exactly the primitive-to-primitive paths
   of the tree.
   */
  method Flatten(top: Node, outSig: Graphs.Block -> Signature, inSig: Graphs.Block -> Signature)
    returns (ok: bool, sfg: FlowgraphObject)
    requires top.Hier?
    ensures sfg.outSig == outSig && sfg.inSig == inSig
    ensures ok <==> Flattens(top, sfg, [])
    ensures ok ==> EdgesOk(sfg.edges) && forall x :: x in sfg.edges <==> FlatEdge(top, x)
  {
    sfg := new FlowgraphObject(outSig, inSig);
    ok := FlattenAux(top, sfg);
  }
}

/**
 Message edges of a whole tree of hierarchical blocks. The blocks are flattened one after the other
 on one list of edges, each before the blocks inside it; then what is hierarchical is cleared. What
 is left between plain blocks is one edge for every route up through output ports, along one edge,
 and down through input ports.
 */
module MessageTree {
  import opened MessageEdges

  /** A hierarchical block and the message edges inside it. */
  datatype Level = Level(owner: nat, inner: seq<MsgEdge>)

  // ------------------------------------------------------------------------------------
  // What a tree allows to be said about its blocks
  // ------------------------------------------------------------------------------------

  /** No edge inside leads back to a port that edges inside are followed from. */
  ghost predicate NoReturn(l: Level) {
    && (forall q :: q in l.inner && Internal(l.owner, q) ==> !OnReplacedPort(l.owner, l.inner, q))
    && (forall q :: q in l.inner && Inward(l.owner, q) ==> !ReplacedDst(l.owner, l.inner, q.dst))
    && (forall q :: q in l.inner && Outward(l.owner, q) ==> !ReplacedSrc(l.owner, l.inner, q.src))
  }

  /** No edge inside that is followed has the same port on both ends. */
  ghost predicate NoLoop(l: Level) {
    forall q :: q in l.inner && !Internal(l.owner, q) ==> !Same(q.src, q.dst)
  }

  /** p does not belong to a block flattened before the j-th. */
  ghost predicate NotBefore(levels: seq<Level>, j: nat, p: MsgEndpoint) {
    forall l :: 0 <= l < |levels| && p.block == levels[l].owner ==> l >= j
  }

  /** Blocks come once, and before the blocks that the edges inside them mention. */
  ghost predicate ParentsFirst(levels: seq<Level>) {
    && (forall i, j :: 0 <= i < j < |levels| ==> levels[i].owner != levels[j].owner)
    && (forall j, e :: 0 <= j < |levels| && e in levels[j].inner ==>
          NotBefore(levels, j, e.src) && NotBefore(levels, j, e.dst))
  }

  /** An endpoint of a block that is not hierarchical. */
  ghost predicate PlainIn(levels: seq<Level>, p: MsgEndpoint) {
    !p.isHier && forall l :: 0 <= l < |levels| ==> p.block != levels[l].owner
  }

  lemma NoReturnIsStraight(outer: seq<MsgEdge>, l: Level)
    requires NoReturn(l)
    ensures Straight(outer, l.owner, l.inner)
  {
  }

  // ------------------------------------------------------------------------------------
  // Block after block
  // ------------------------------------------------------------------------------------

  /** What becomes of a source p when one block is flattened. */
  predicate SrcOnce(l: Level, p: MsgEndpoint, a: MsgEndpoint) {
    if ReplacedSrc(l.owner, l.inner, p)
    then exists q :: q in l.inner && Outward(l.owner, q) && Same(p, q.dst) && a == q.src
    else a == p
  }

  predicate DstOnce(l: Level, p: MsgEndpoint, a: MsgEndpoint) {
    if ReplacedDst(l.owner, l.inner, p)
    then exists q :: q in l.inner && Inward(l.owner, q) && Same(p, q.src) && a == q.dst
    else a == p
  }

  /** What becomes of it when the blocks from the j-th up to the n-th are. */
  ghost predicate SrcEnds(levels: seq<Level>, j: nat, n: nat, p: MsgEndpoint, a: MsgEndpoint)
    requires j <= n <= |levels|
    decreases n
  {
    if j == n then a == p
    else
      var m := n - 1;
      exists b :: SrcEnds(levels, j, m, p, b) && SrcOnce(levels[m], b, a)
  }

  ghost predicate DstEnds(levels: seq<Level>, j: nat, n: nat, p: MsgEndpoint, a: MsgEndpoint)
    requires j <= n <= |levels|
    decreases n
  {
    if j == n then a == p
    else
      var m := n - 1;
      exists b :: DstEnds(levels, j, m, p, b) && DstOnce(levels[m], b, a)
  }

  /** e is an edge between blocks of the j-th block, and x is what the later blocks make of it. */
  ghost predicate MadeOf(levels: seq<Level>, n: nat, x: MsgEdge, j: nat, e: MsgEdge)
    requires n <= |levels|
  {
    && j < n && InnerEdge(levels[j].owner, levels[j].inner, e)
    && SrcEnds(levels, j + 1, n, e.src, x.src) && DstEnds(levels, j + 1, n, e.dst, x.dst)
  }

  ghost predicate Composite(levels: seq<Level>, n: nat, x: MsgEdge)
    requires n <= |levels|
  {
    exists j: nat, e :: MadeOf(levels, n, x, j, e)
  }

  lemma JoinedIsMadeOf(levels: seq<Level>, n: nat, outer: seq<MsgEdge>, x: MsgEdge)
    requires n < |levels| && forall y :: y in outer <==> Composite(levels, n, y)
    requires Joined(outer, levels[n].owner, levels[n].inner, x)
    ensures Composite(levels, n + 1, x)
  {
    var l := levels[n];
    if InnerEdge(l.owner, l.inner, x) {
      assert MadeOf(levels, n + 1, x, n, x);
    } else {
      var y :| y in outer && SrcOnce(l, y.src, x.src) && DstOnce(l, y.dst, x.dst);
      var j: nat, e :| MadeOf(levels, n, y, j, e);
      assert MadeOf(levels, n + 1, x, j, e);
    }
  }

  lemma MadeOfIsJoined(levels: seq<Level>, n: nat, outer: seq<MsgEdge>, x: MsgEdge)
    requires n < |levels| && forall y :: y in outer <==> Composite(levels, n, y)
    requires Composite(levels, n + 1, x)
    ensures Joined(outer, levels[n].owner, levels[n].inner, x)
  {
    var l := levels[n];
    var j: nat, e :| MadeOf(levels, n + 1, x, j, e);
    if j < n {
      var a :| SrcEnds(levels, j + 1, n, e.src, a) && SrcOnce(l, a, x.src);
      var b :| DstEnds(levels, j + 1, n, e.dst, b) && DstOnce(l, b, x.dst);
      var y := MsgEdge(a, b);
      assert MadeOf(levels, n, y, j, e);
      assert y in outer;
    } else {
      assert x == e;
    }
  }

  // ------------------------------------------------------------------------------------
  // Routes
  // ------------------------------------------------------------------------------------

  /** An edge of the l-th block, to one of its own output ports, or from one of its own input ports. */
  datatype Hop = Hop(level: nat, edge: MsgEdge)

  predicate IsOutHop(levels: seq<Level>, h: Hop, p: MsgEndpoint) {
    && h.level < |levels| && h.edge in levels[h.level].inner
    && Outward(levels[h.level].owner, h.edge) && Same(p, h.edge.dst)
  }

  predicate IsInHop(levels: seq<Level>, h: Hop, p: MsgEndpoint) {
    && h.level < |levels| && h.edge in levels[h.level].inner
    && Inward(levels[h.level].owner, h.edge) && Same(p, h.edge.src)
  }

  /** From the output port p back, through the blocks it belongs to, to the source a. */
  predicate OutRoute(levels: seq<Level>, p: MsgEndpoint, hs: seq<Hop>, a: MsgEndpoint)
    decreases |hs|
  {
    if hs == [] then a == p else IsOutHop(levels, hs[0], p) && OutRoute(levels, hs[0].edge.src, hs[1..], a)
  }

  /** From the input port p on to the destination a. */
  predicate InRoute(levels: seq<Level>, p: MsgEndpoint, hs: seq<Hop>, a: MsgEndpoint)
    decreases |hs|
  {
    if hs == [] then a == p else IsInHop(levels, hs[0], p) && InRoute(levels, hs[0].edge.dst, hs[1..], a)
  }

  /** Up from s to the source of an edge between two blocks, along it, and down from its destination to d. */
  ghost predicate Route(levels: seq<Level>, s: MsgEndpoint, d: MsgEndpoint) {
    exists j: nat, e, up, down :: RouteBy(levels, s, d, j, e, up, down)
  }

  ghost predicate RouteBy(levels: seq<Level>, s: MsgEndpoint, d: MsgEndpoint, j: nat, e: MsgEdge, up: seq<Hop>,
                          down: seq<Hop>)
  {
    && j < |levels| && InnerEdge(levels[j].owner, levels[j].inner, e)
    && OutRoute(levels, e.src, up, s) && InRoute(levels, e.dst, down, d)
  }

  // ---- from ends to routes ----

  lemma {:induction false} OutRouteFurther(levels: seq<Level>, p: MsgEndpoint, hs: seq<Hop>, b: MsgEndpoint, h: Hop)
    requires OutRoute(levels, p, hs, b) && IsOutHop(levels, h, b)
    ensures OutRoute(levels, p, hs + [h], h.edge.src)
    decreases |hs|
  {
    if hs == [] {
      assert [h][1..] == [];
    } else {
      OutRouteFurther(levels, hs[0].edge.src, hs[1..], b, h);
      assert (hs + [h])[1..] == hs[1..] + [h];
    }
  }

  lemma {:induction false} InRouteFurther(levels: seq<Level>, p: MsgEndpoint, hs: seq<Hop>, b: MsgEndpoint, h: Hop)
    requires InRoute(levels, p, hs, b) && IsInHop(levels, h, b)
    ensures InRoute(levels, p, hs + [h], h.edge.dst)
    decreases |hs|
  {
    if hs == [] {
      assert [h][1..] == [];
    } else {
      InRouteFurther(levels, hs[0].edge.dst, hs[1..], b, h);
      assert (hs + [h])[1..] == hs[1..] + [h];
    }
  }

  lemma {:induction false} SrcEndsByRoute(levels: seq<Level>, j: nat, n: nat, p: MsgEndpoint, a: MsgEndpoint)
    returns (hs: seq<Hop>)
    requires j <= n <= |levels| && SrcEnds(levels, j, n, p, a)
    ensures OutRoute(levels, p, hs, a)
    decreases n
  {
    hs := [];
    if j < n {
      var l := levels[n - 1];
      var b :| SrcEnds(levels, j, n - 1, p, b) && SrcOnce(l, b, a);
      hs := SrcEndsByRoute(levels, j, n - 1, p, b);
      if ReplacedSrc(l.owner, l.inner, b) {
        var q :| q in l.inner && Outward(l.owner, q) && Same(b, q.dst) && a == q.src;
        OutRouteFurther(levels, p, hs, b, Hop(n - 1, q));
        hs := hs + [Hop(n - 1, q)];
      }
    }
  }

  lemma {:induction false} DstEndsByRoute(levels: seq<Level>, j: nat, n: nat, p: MsgEndpoint, a: MsgEndpoint)
    returns (hs: seq<Hop>)
    requires j <= n <= |levels| && DstEnds(levels, j, n, p, a)
    ensures InRoute(levels, p, hs, a)
    decreases n
  {
    hs := [];
    if j < n {
      var l := levels[n - 1];
      var b :| DstEnds(levels, j, n - 1, p, b) && DstOnce(l, b, a);
      hs := DstEndsByRoute(levels, j, n - 1, p, b);
      if ReplacedDst(l.owner, l.inner, b) {
        var q :| q in l.inner && Inward(l.owner, q) && Same(b, q.src) && a == q.dst;
        InRouteFurther(levels, p, hs, b, Hop(n - 1, q));
        hs := hs + [Hop(n - 1, q)];
      }
    }
  }

  // ---- from routes to ends ----

  /** Nothing from the j-th block on replaces p as a source. */
  lemma SrcStays(levels: seq<Level>, j: nat, n: nat, p: MsgEndpoint)
    requires j <= n <= |levels|
    requires forall l :: j <= l < n ==> !ReplacedSrc(levels[l].owner, levels[l].inner, p)
    ensures SrcEnds(levels, j, n, p, p)
    decreases n
  {
    if j < n {
      SrcStays(levels, j, n - 1, p);
      assert SrcOnce(levels[n - 1], p, p);
    }
  }

  lemma DstStays(levels: seq<Level>, j: nat, n: nat, p: MsgEndpoint)
    requires j <= n <= |levels|
    requires forall l :: j <= l < n ==> !ReplacedDst(levels[l].owner, levels[l].inner, p)
    ensures DstEnds(levels, j, n, p, p)
    decreases n
  {
    if j < n {
      DstStays(levels, j, n - 1, p);
      assert DstOnce(levels[n - 1], p, p);
    }
  }

  lemma {:induction false} SrcEndsJoin(levels: seq<Level>, i: nat, j: nat, n: nat, p: MsgEndpoint, b: MsgEndpoint,
                                       a: MsgEndpoint)
    requires i <= j <= n <= |levels| && SrcEnds(levels, i, j, p, b) && SrcEnds(levels, j, n, b, a)
    ensures SrcEnds(levels, i, n, p, a)
    decreases n
  {
    if j < n {
      var c :| SrcEnds(levels, j, n - 1, b, c) && SrcOnce(levels[n - 1], c, a);
      SrcEndsJoin(levels, i, j, n - 1, p, b, c);
    }
  }

  lemma {:induction false} DstEndsJoin(levels: seq<Level>, i: nat, j: nat, n: nat, p: MsgEndpoint, b: MsgEndpoint,
                                       a: MsgEndpoint)
    requires i <= j <= n <= |levels| && DstEnds(levels, i, j, p, b) && DstEnds(levels, j, n, b, a)
    ensures DstEnds(levels, i, n, p, a)
    decreases n
  {
    if j < n {
      var c :| DstEnds(levels, j, n - 1, b, c) && DstOnce(levels[n - 1], c, a);
      DstEndsJoin(levels, i, j, n - 1, p, b, c);
    }
  }

  /** p belongs to no block before the j-th, nor to the j-th by a port followed there. */
  ghost predicate SrcLater(levels: seq<Level>, j: nat, p: MsgEndpoint) {
    && j < |levels| && NotBefore(levels, j, p)
    && !ReplacedSrc(levels[j].owner, levels[j].inner, p)
  }

  ghost predicate DstLater(levels: seq<Level>, j: nat, p: MsgEndpoint) {
    && j < |levels| && NotBefore(levels, j, p)
    && !ReplacedDst(levels[j].owner, levels[j].inner, p)
  }

  /** One hop is what its own block makes of p, and the blocks before it leave p alone. */
  lemma OutHopIsEnd(levels: seq<Level>, j: nat, h: Hop, p: MsgEndpoint)
    requires ParentsFirst(levels) && (forall l :: l in levels ==> NoReturn(l))
    requires SrcLater(levels, j, p) && IsOutHop(levels, h, p)
    ensures j < h.level && SrcEnds(levels, j + 1, h.level + 1, p, h.edge.src) && SrcLater(levels, h.level, h.edge.src)
  {
    var l := levels[h.level];
    assert l in levels && p.block == l.owner && ReplacedSrc(l.owner, l.inner, p);
    forall i | j + 1 <= i < h.level ensures !ReplacedSrc(levels[i].owner, levels[i].inner, p) {
      assert levels[i].owner != levels[h.level].owner;
    }
    SrcStays(levels, j + 1, h.level, p);
    assert SrcOnce(l, p, h.edge.src);
  }

  lemma InHopIsEnd(levels: seq<Level>, j: nat, h: Hop, p: MsgEndpoint)
    requires ParentsFirst(levels) && (forall l :: l in levels ==> NoReturn(l))
    requires DstLater(levels, j, p) && IsInHop(levels, h, p)
    ensures j < h.level && DstEnds(levels, j + 1, h.level + 1, p, h.edge.dst) && DstLater(levels, h.level, h.edge.dst)
  {
    var l := levels[h.level];
    assert l in levels && p.block == l.owner && ReplacedDst(l.owner, l.inner, p);
    forall i | j + 1 <= i < h.level ensures !ReplacedDst(levels[i].owner, levels[i].inner, p) {
      assert levels[i].owner != levels[h.level].owner;
    }
    DstStays(levels, j + 1, h.level, p);
    assert DstOnce(l, p, h.edge.dst);
  }

  lemma {:induction false} OutRouteIsEnd(levels: seq<Level>, j: nat, p: MsgEndpoint, hs: seq<Hop>, a: MsgEndpoint)
    requires ParentsFirst(levels) && (forall l :: l in levels ==> NoReturn(l))
    requires SrcLater(levels, j, p) && OutRoute(levels, p, hs, a) && PlainIn(levels, a)
    ensures SrcEnds(levels, j + 1, |levels|, p, a)
    decreases |hs|
  {
    if hs == [] {
      SrcStays(levels, j + 1, |levels|, p);
    } else {
      OutHopIsEnd(levels, j, hs[0], p);
      OutRouteIsEnd(levels, hs[0].level, hs[0].edge.src, hs[1..], a);
      SrcEndsJoin(levels, j + 1, hs[0].level + 1, |levels|, p, hs[0].edge.src, a);
    }
  }

  lemma {:induction false} InRouteIsEnd(levels: seq<Level>, j: nat, p: MsgEndpoint, hs: seq<Hop>, a: MsgEndpoint)
    requires ParentsFirst(levels) && (forall l :: l in levels ==> NoReturn(l))
    requires DstLater(levels, j, p) && InRoute(levels, p, hs, a) && PlainIn(levels, a)
    ensures DstEnds(levels, j + 1, |levels|, p, a)
    decreases |hs|
  {
    if hs == [] {
      DstStays(levels, j + 1, |levels|, p);
    } else {
      InHopIsEnd(levels, j, hs[0], p);
      InRouteIsEnd(levels, hs[0].level, hs[0].edge.dst, hs[1..], a);
      DstEndsJoin(levels, j + 1, hs[0].level + 1, |levels|, p, hs[0].edge.dst, a);
    }
  }

  /**
   Between plain blocks, what the blocks of a tree make of each other's edges is exactly its routes,
   however long and whatever the order in which the blocks beside each other come.
   */
  lemma CompositeIsRoute(levels: seq<Level>, s: MsgEndpoint, d: MsgEndpoint)
    requires ParentsFirst(levels) && (forall l :: l in levels ==> NoReturn(l))
    requires PlainIn(levels, s) && PlainIn(levels, d)
    ensures Composite(levels, |levels|, MsgEdge(s, d)) <==> Route(levels, s, d)
  {
    var x := MsgEdge(s, d);
    if j: nat, e :| MadeOf(levels, |levels|, x, j, e) {
      var up := SrcEndsByRoute(levels, j + 1, |levels|, e.src, s);
      var down := DstEndsByRoute(levels, j + 1, |levels|, e.dst, d);
      assert RouteBy(levels, s, d, j, e, up, down);
    }
    if j: nat, e, up, down :| RouteBy(levels, s, d, j, e, up, down) {
      assert levels[j] in levels && !OnReplacedPort(levels[j].owner, levels[j].inner, e);
      OutRouteIsEnd(levels, j, e.src, up, s);
      InRouteIsEnd(levels, j, e.dst, down, d);
      assert MadeOf(levels, |levels|, x, j, e);
    }
  }

  /** The order of the blocks plays no part, as long as each comes before the blocks inside it. */
  lemma OrderDoesNotMatter(levels: seq<Level>, others: seq<Level>, s: MsgEndpoint, d: MsgEndpoint)
    requires ParentsFirst(levels) && ParentsFirst(others) && multiset(levels) == multiset(others)
    requires forall l :: l in levels ==> NoReturn(l)
    requires PlainIn(levels, s) && PlainIn(levels, d)
    ensures Composite(levels, |levels|, MsgEdge(s, d)) <==> Composite(others, |others|, MsgEdge(s, d))
  {
    SameBlocks(levels, others);
    SameBlocks(others, levels);
    PlainElsewhere(levels, others, s);
    PlainElsewhere(levels, others, d);
    CompositeIsRoute(levels, s, d);
    CompositeIsRoute(others, s, d);
    if Route(levels, s, d) {
      RouteElsewhere(levels, others, s, d);
    }
    if Route(others, s, d) {
      RouteElsewhere(others, levels, s, d);
    }
  }

  lemma PlainElsewhere(levels: seq<Level>, others: seq<Level>, p: MsgEndpoint)
    requires PlainIn(levels, p) && forall l :: l in others ==> l in levels
    ensures PlainIn(others, p)
  {
    forall i | 0 <= i < |others| ensures p.block != others[i].owner {
      assert others[i] in levels;
      var k :| 0 <= k < |levels| && levels[k] == others[i];
    }
  }

  lemma SameBlocks(levels: seq<Level>, others: seq<Level>)
    requires multiset(levels) == multiset(others)
    ensures forall l :: l in levels ==> l in others
  {
    forall l | l in levels ensures l in others {
      assert l in multiset(levels);
    }
  }

  lemma {:induction false} OutRouteElsewhere(levels: seq<Level>, others: seq<Level>, p: MsgEndpoint, hs: seq<Hop>,
                                             a: MsgEndpoint)
    returns (gs: seq<Hop>)
    requires (forall l :: l in levels ==> l in others) && OutRoute(levels, p, hs, a)
    ensures OutRoute(others, p, gs, a)
    decreases |hs|
  {
    gs := [];
    if hs != [] {
      var rest := OutRouteElsewhere(levels, others, hs[0].edge.src, hs[1..], a);
      assert levels[hs[0].level] in others;
      var i: nat :| i < |others| && others[i] == levels[hs[0].level];
      gs := [Hop(i, hs[0].edge)] + rest;
      assert gs[1..] == rest;
    }
  }

  lemma {:induction false} InRouteElsewhere(levels: seq<Level>, others: seq<Level>, p: MsgEndpoint, hs: seq<Hop>,
                                            a: MsgEndpoint)
    returns (gs: seq<Hop>)
    requires (forall l :: l in levels ==> l in others) && InRoute(levels, p, hs, a)
    ensures InRoute(others, p, gs, a)
    decreases |hs|
  {
    gs := [];
    if hs != [] {
      var rest := InRouteElsewhere(levels, others, hs[0].edge.dst, hs[1..], a);
      assert levels[hs[0].level] in others;
      var i: nat :| i < |others| && others[i] == levels[hs[0].level];
      gs := [Hop(i, hs[0].edge)] + rest;
      assert gs[1..] == rest;
    }
  }

  lemma RouteElsewhere(levels: seq<Level>, others: seq<Level>, s: MsgEndpoint, d: MsgEndpoint)
    requires (forall l :: l in levels ==> l in others) && Route(levels, s, d)
    ensures Route(others, s, d)
  {
    var j: nat, e, up, down :| RouteBy(levels, s, d, j, e, up, down);
    var up' := OutRouteElsewhere(levels, others, e.src, up, s);
    var down' := InRouteElsewhere(levels, others, e.dst, down, d);
    assert levels[j] in others;
    var i: nat :| i < |others| && others[i] == levels[j];
    assert RouteBy(others, s, d, i, e, up', down');
  }

  // ------------------------------------------------------------------------------------
  // The tree
  // ------------------------------------------------------------------------------------

  /** The n-th block's edges cannot be connected to what the blocks before it have left. */
  ghost predicate RefusedAt(ports: Ports, levels: seq<Level>, n: nat, outer: seq<MsgEdge>) {
    && n < |levels| && (forall x :: x in outer <==> Composite(levels, n, x))
    && !RewriteAll(ports, outer, levels[n].owner, levels[n].inner).ok
  }

  lemma OneBlockMore(levels: seq<Level>, n: nat, outer: seq<MsgEdge>, now: seq<MsgEdge>)
    requires n < |levels| && forall x :: x in outer <==> Composite(levels, n, x)
    requires forall x :: x in now <==> Joined(outer, levels[n].owner, levels[n].inner, x)
    ensures forall x :: x in now <==> Composite(levels, n + 1, x)
  {
    forall x ensures x in now <==> Composite(levels, n + 1, x) {
      if x in now {
        JoinedIsMadeOf(levels, n, outer, x);
      }
      if Composite(levels, n + 1, x) {
        MadeOfIsJoined(levels, n, outer, x);
      }
    }
  }

  /**
   Flattens block after block, as the recursion over the tree does, and clears what is hierarchical:
   what is left is what the blocks make of each other's edges, without the hierarchical ends; between
   plain blocks, exactly the routes of the tree.
   */
  method FlattenTree(g: MessageGraph, levels: seq<Level>) returns (ok: bool)
    requires g.msgEdges == [] && forall l :: l in levels ==> NoReturn(l) && NoLoop(l)
    modifies g
    ensures !ok ==> exists n: nat, outer :: RefusedAt(g.ports, levels, n, outer)
    ensures ok ==> forall x :: x in g.msgEdges <==> Composite(levels, |levels|, x) && !TouchesHier(x)
    ensures ok && ParentsFirst(levels) ==>
              forall s, d :: PlainIn(levels, s) && PlainIn(levels, d) ==>
                (MsgEdge(s, d) in g.msgEdges <==> Route(levels, s, d))
  {
    for n := 0 to |levels|
      invariant forall x :: x in g.msgEdges <==> Composite(levels, n, x)
    {
      ghost var outer := g.msgEdges;
      assert levels[n] in levels;
      ok := g.FlattenMessages(levels[n].owner, levels[n].inner);
      if !ok {
        assert RefusedAt(g.ports, levels, n, outer);
        return;
      }
      NoReturnIsStraight(outer, levels[n]);
      OneBlockMore(levels, n, outer, g.msgEdges);
    }
    g.ClearHier();
    ok := true;
    if ParentsFirst(levels) {
      forall s, d | PlainIn(levels, s) && PlainIn(levels, d)
        ensures MsgEdge(s, d) in g.msgEdges <==> Route(levels, s, d)
      {
        CompositeIsRoute(levels, s, d);
      }
    }
  }
}

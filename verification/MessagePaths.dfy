/**
 Which message paths survive flattening a hierarchical block: a path leads from a plain block through
 the ports of the hierarchical block, along outer and inner edges by turns, to a plain block.
 */
module MessagePaths {
  import opened MessageEdges

  // ------------------------------------------------------------------------------------
  // Paths
  // ------------------------------------------------------------------------------------

  /** One edge of a path, outside the hierarchical block or inside it. */
  datatype Hop = Hop(outside: bool, edge: MsgEdge)

  /** An endpoint of a block that is not hierarchical. */
  predicate Plain(owner: nat, e: MsgEndpoint) {
    !e.isHier && e.block != owner
  }

  /** An inner edge that ends at one of the owner's ports. */
  predicate ToOwner(owner: nat, q: MsgEdge) {
    q.dst.isHier && q.dst.block == owner
  }

  /** From outside in at an input port, or from inside out at an output port. */
  predicate Joins(owner: nat, a: Hop, b: Hop) {
    && a.outside != b.outside && Same(a.edge.dst, b.edge.src)
    && (if a.outside then Inward(owner, b.edge) else ToOwner(owner, a.edge))
  }

  ghost predicate IsPath(outer: seq<MsgEdge>, owner: nat, inner: seq<MsgEdge>, p: seq<Hop>) {
    && p != []
    && (forall i :: 0 <= i < |p| ==> p[i].edge in if p[i].outside then outer else inner)
    && (forall i :: 0 <= i < |p| - 1 ==> Joins(owner, p[i], p[i + 1]))
  }

  ghost predicate PathBetween(outer: seq<MsgEdge>, owner: nat, inner: seq<MsgEdge>, p: seq<Hop>, s: MsgEndpoint,
                              d: MsgEndpoint)
  {
    && IsPath(outer, owner, inner, p) && Plain(owner, s) && Plain(owner, d)
    && p[0].edge.src == s && p[|p| - 1].edge.dst == d
  }

  ghost predicate Connects(outer: seq<MsgEdge>, owner: nat, inner: seq<MsgEdge>, s: MsgEndpoint, d: MsgEndpoint) {
    exists p :: PathBetween(outer, owner, inner, p, s, d)
  }

  // ------------------------------------------------------------------------------------
  // What can be said of the edges beforehand
  // ------------------------------------------------------------------------------------

  /** s feeds the outer edge y: it is y's source, or an inner edge leads from it to y's source. */
  predicate Feeds(owner: nat, inner: seq<MsgEdge>, s: MsgEndpoint, y: MsgEdge) {
    s == y.src || exists q :: q in inner && Outward(owner, q) && Same(y.src, q.dst) && s == q.src
  }

  /** d is fed by the outer edge y. */
  predicate FedBy(owner: nat, inner: seq<MsgEdge>, y: MsgEdge, d: MsgEndpoint) {
    d == y.dst || exists q :: q in inner && Inward(owner, q) && Same(y.dst, q.src) && d == q.dst
  }

  /** One outer edge leads from s to d, or an inner edge does. */
  ghost predicate Direct(outer: seq<MsgEdge>, owner: nat, inner: seq<MsgEdge>, s: MsgEndpoint, d: MsgEndpoint) {
    InnerEdge(owner, inner, MsgEdge(s, d)) ||
      exists y :: y in outer && Feeds(owner, inner, s, y) && FedBy(owner, inner, y, d)
  }

  /** An inner edge from an input straight to an output carries messages of y on to z. */
  predicate PassesOn(owner: nat, inner: seq<MsgEdge>, y: MsgEdge, z: MsgEdge) {
    exists q :: q in inner && Inward(owner, q) && ToOwner(owner, q) && Same(y.dst, q.src) && Same(q.dst, z.src)
  }

  /** Outer edges, each passed on to the next. */
  ghost predicate Chain(outer: seq<MsgEdge>, owner: nat, inner: seq<MsgEdge>, c: seq<MsgEdge>) {
    && c != [] && (forall i :: 0 <= i < |c| ==> c[i] in outer)
    && forall i :: 0 <= i < |c| - 1 ==> PassesOn(owner, inner, c[i], c[i + 1])
  }

  /** Messages of y come out as messages of z, after passing through at least once. */
  ghost predicate PassesThrough(outer: seq<MsgEdge>, owner: nat, inner: seq<MsgEdge>, y: MsgEdge, z: MsgEdge) {
    exists c :: Chain(outer, owner, inner, c) && |c| >= 2 && c[0] == y && c[|c| - 1] == z
  }

  ghost predicate Through(outer: seq<MsgEdge>, owner: nat, inner: seq<MsgEdge>, s: MsgEndpoint, d: MsgEndpoint) {
    exists y, z :: PassesThrough(outer, owner, inner, y, z) && Feeds(owner, inner, s, y) && FedBy(owner, inner, z, d)
  }

  // ------------------------------------------------------------------------------------
  // From paths to chains
  // ------------------------------------------------------------------------------------

  lemma TailOfPath(outer: seq<MsgEdge>, owner: nat, inner: seq<MsgEdge>, p: seq<Hop>, k: nat)
    requires IsPath(outer, owner, inner, p) && k < |p|
    ensures IsPath(outer, owner, inner, p[k..])
  {
    var t := p[k..];
    forall i | 0 <= i < |t| - 1 ensures Joins(owner, t[i], t[i + 1]) {
      assert Joins(owner, p[k + i], p[k + i + 1]);
    }
  }

  /** A path that begins outside follows a chain of outer edges to one that feeds its end. */
  lemma {:induction false} PathFollowsChain(outer: seq<MsgEdge>, owner: nat, inner: seq<MsgEdge>, p: seq<Hop>)
    returns (c: seq<MsgEdge>)
    requires IsPath(outer, owner, inner, p) && p[0].outside && Plain(owner, p[|p| - 1].edge.dst)
    ensures Chain(outer, owner, inner, c) && c[0] == p[0].edge && FedBy(owner, inner, c[|c| - 1], p[|p| - 1].edge.dst)
    decreases |p|
  {
    c := [p[0].edge];
    if |p| > 1 {
      assert Joins(owner, p[0], p[1]);
      if |p| > 2 {
        assert Joins(owner, p[1], p[2]);
        TailOfPath(outer, owner, inner, p, 2);
        var rest := PathFollowsChain(outer, owner, inner, p[2..]);
        assert PassesOn(owner, inner, p[0].edge, rest[0]);
        PrependChain(outer, owner, inner, p[0].edge, rest);
        c := [p[0].edge] + rest;
      }
    }
  }

  lemma PrependChain(outer: seq<MsgEdge>, owner: nat, inner: seq<MsgEdge>, y: MsgEdge, c: seq<MsgEdge>)
    requires Chain(outer, owner, inner, c) && y in outer && PassesOn(owner, inner, y, c[0])
    ensures Chain(outer, owner, inner, [y] + c)
  {
    var t := [y] + c;
    forall i | 0 <= i < |t| - 1 ensures PassesOn(owner, inner, t[i], t[i + 1]) {
      if i > 0 {
        assert PassesOn(owner, inner, c[i - 1], c[i]);
      }
    }
  }

  lemma ChainIsDirectOrThrough(outer: seq<MsgEdge>, owner: nat, inner: seq<MsgEdge>, c: seq<MsgEdge>, s: MsgEndpoint,
                               d: MsgEndpoint)
    requires Chain(outer, owner, inner, c) && Feeds(owner, inner, s, c[0]) && FedBy(owner, inner, c[|c| - 1], d)
    ensures Direct(outer, owner, inner, s, d) || Through(outer, owner, inner, s, d)
  {
    if |c| > 1 {
      assert PassesThrough(outer, owner, inner, c[0], c[|c| - 1]);
    }
  }

  lemma PathIsDirectOrThrough(outer: seq<MsgEdge>, owner: nat, inner: seq<MsgEdge>, p: seq<Hop>, s: MsgEndpoint,
                              d: MsgEndpoint)
    requires PathBetween(outer, owner, inner, p, s, d)
    ensures Direct(outer, owner, inner, s, d) || Through(outer, owner, inner, s, d)
  {
    if p[0].outside {
      var c := PathFollowsChain(outer, owner, inner, p);
      ChainIsDirectOrThrough(outer, owner, inner, c, s, d);
    } else if |p| == 1 {
      assert p[0].edge == MsgEdge(s, d);
    } else {
      assert Joins(owner, p[0], p[1]);
      TailOfPath(outer, owner, inner, p, 1);
      var c := PathFollowsChain(outer, owner, inner, p[1..]);
      assert Feeds(owner, inner, s, c[0]);
      ChainIsDirectOrThrough(outer, owner, inner, c, s, d);
    }
  }

  // ------------------------------------------------------------------------------------
  // From chains to paths
  // ------------------------------------------------------------------------------------

  lemma PrependHop(outer: seq<MsgEdge>, owner: nat, inner: seq<MsgEdge>, h: Hop, p: seq<Hop>)
    requires IsPath(outer, owner, inner, p) && h.edge in (if h.outside then outer else inner) && Joins(owner, h, p[0])
    ensures IsPath(outer, owner, inner, [h] + p)
  {
    var t := [h] + p;
    forall i | 0 <= i < |t| - 1 ensures Joins(owner, t[i], t[i + 1]) {
      if i > 0 {
        assert Joins(owner, p[i - 1], p[i]);
      }
    }
  }

  lemma {:induction false} ChainHasPath(outer: seq<MsgEdge>, owner: nat, inner: seq<MsgEdge>, c: seq<MsgEdge>,
                                        d: MsgEndpoint)
    returns (p: seq<Hop>)
    requires Chain(outer, owner, inner, c) && FedBy(owner, inner, c[|c| - 1], d)
    ensures IsPath(outer, owner, inner, p) && p[0] == Hop(true, c[0]) && p[|p| - 1].edge.dst == d
    decreases |c|
  {
    if |c| == 1 {
      if d == c[0].dst {
        p := [Hop(true, c[0])];
      } else {
        var q :| q in inner && Inward(owner, q) && Same(c[0].dst, q.src) && d == q.dst;
        p := [Hop(true, c[0]), Hop(false, q)];
        assert Joins(owner, p[0], p[1]);
      }
    } else {
      var rest := c[1..];
      forall i | 0 <= i < |rest| - 1 ensures PassesOn(owner, inner, rest[i], rest[i + 1]) {
        assert PassesOn(owner, inner, c[i + 1], c[i + 2]);
      }
      var t := ChainHasPath(outer, owner, inner, rest, d);
      assert PassesOn(owner, inner, c[0], c[1]);
      var q :| q in inner && Inward(owner, q) && ToOwner(owner, q) && Same(c[0].dst, q.src) && Same(q.dst, c[1].src);
      PrependHop(outer, owner, inner, Hop(false, q), t);
      PrependHop(outer, owner, inner, Hop(true, c[0]), [Hop(false, q)] + t);
      p := [Hop(true, c[0])] + ([Hop(false, q)] + t);
    }
  }

  lemma FedChainHasPath(outer: seq<MsgEdge>, owner: nat, inner: seq<MsgEdge>, c: seq<MsgEdge>, s: MsgEndpoint,
                        d: MsgEndpoint)
    requires Chain(outer, owner, inner, c) && Feeds(owner, inner, s, c[0]) && FedBy(owner, inner, c[|c| - 1], d)
    requires Plain(owner, s) && Plain(owner, d)
    ensures Connects(outer, owner, inner, s, d)
  {
    var p := ChainHasPath(outer, owner, inner, c, d);
    if s == c[0].src {
      assert PathBetween(outer, owner, inner, p, s, d);
    } else {
      var q :| q in inner && Outward(owner, q) && Same(c[0].src, q.dst) && s == q.src;
      PrependHop(outer, owner, inner, Hop(false, q), p);
      assert PathBetween(outer, owner, inner, [Hop(false, q)] + p, s, d);
    }
  }

  /** A path leads from s to d exactly when they are connected directly, or by passing through. */
  lemma PathsAreDirectOrThrough(outer: seq<MsgEdge>, owner: nat, inner: seq<MsgEdge>, s: MsgEndpoint, d: MsgEndpoint)
    requires Plain(owner, s) && Plain(owner, d)
    ensures Connects(outer, owner, inner, s, d) <==>
            Direct(outer, owner, inner, s, d) || Through(outer, owner, inner, s, d)
  {
    if p :| PathBetween(outer, owner, inner, p, s, d) {
      PathIsDirectOrThrough(outer, owner, inner, p, s, d);
    }
    if InnerEdge(owner, inner, MsgEdge(s, d)) {
      assert PathBetween(outer, owner, inner, [Hop(false, MsgEdge(s, d))], s, d);
    }
    if y :| y in outer && Feeds(owner, inner, s, y) && FedBy(owner, inner, y, d) {
      assert Chain(outer, owner, inner, [y]);
      FedChainHasPath(outer, owner, inner, [y], s, d);
    }
    if y, z :| PassesThrough(outer, owner, inner, y, z) && Feeds(owner, inner, s, y) && FedBy(owner, inner, z, d) {
      var c :| Chain(outer, owner, inner, c) && |c| >= 2 && c[0] == y && c[|c| - 1] == z;
      FedChainHasPath(outer, owner, inner, c, s, d);
    }
  }

  // ------------------------------------------------------------------------------------
  // What survives
  // ------------------------------------------------------------------------------------

  /** Left after the replacements and both clears. */
  predicate Survives(ports: Ports, outer: seq<MsgEdge>, owner: nat, inner: seq<MsgEdge>, x: MsgEdge) {
    Left(ports, outer, owner, inner, x) && !TouchesHier(x)
  }

  lemma DirectIsJoined(outer: seq<MsgEdge>, owner: nat, inner: seq<MsgEdge>, s: MsgEndpoint, d: MsgEndpoint)
    requires Plain(owner, s) && Plain(owner, d)
    ensures Direct(outer, owner, inner, s, d) <==> Joined(outer, owner, inner, MsgEdge(s, d))
  {
    var x := MsgEdge(s, d);
    if y :| y in outer && Feeds(owner, inner, s, y) && FedBy(owner, inner, y, d) {
      assert ReplacedSrc(owner, inner, y.src) <==> s != y.src || ReplacedSrc(owner, inner, s);
      assert ReplacedDst(owner, inner, y.dst) <==> d != y.dst || ReplacedDst(owner, inner, d);
    }
  }

  /** Between plain blocks, an edge survives exactly when one edge connects them directly. */
  lemma SurvivesExactlyWhenDirect(ports: Ports, outer: seq<MsgEdge>, owner: nat, inner: seq<MsgEdge>, s: MsgEndpoint,
                                  d: MsgEndpoint)
    requires RewriteAll(ports, outer, owner, inner).ok && Straight(outer, owner, inner)
    requires Plain(owner, s) && Plain(owner, d)
    ensures Survives(ports, outer, owner, inner, MsgEdge(s, d)) <==> Direct(outer, owner, inner, s, d)
  {
    JoinedIsLeft(ports, outer, owner, inner, MsgEdge(s, d));
    DirectIsJoined(outer, owner, inner, s, d);
  }

  /** Every message path between plain blocks survives as an edge. */
  ghost predicate NoPathLost(ports: Ports, outer: seq<MsgEdge>, owner: nat, inner: seq<MsgEdge>) {
    forall s, d :: Plain(owner, s) && Plain(owner, d) && Connects(outer, owner, inner, s, d) ==>
      Survives(ports, outer, owner, inner, MsgEdge(s, d))
  }

  /** Whatever passes through the block is connected directly as well. */
  ghost predicate PassingIsCovered(outer: seq<MsgEdge>, owner: nat, inner: seq<MsgEdge>) {
    forall s, d :: Plain(owner, s) && Plain(owner, d) && Through(outer, owner, inner, s, d) ==>
      Direct(outer, owner, inner, s, d)
  }

  /**
   Flattening a hierarchical block and clearing what is hierarchical keeps every message path between
   plain blocks if and only if whatever passes through the block is connected directly as well.
   */
  lemma NoPathLostExactlyWhen(ports: Ports, outer: seq<MsgEdge>, owner: nat, inner: seq<MsgEdge>)
    requires RewriteAll(ports, outer, owner, inner).ok && Straight(outer, owner, inner)
    ensures NoPathLost(ports, outer, owner, inner) <==> PassingIsCovered(outer, owner, inner)
  {
    if PassingIsCovered(outer, owner, inner) {
      forall s, d | Plain(owner, s) && Plain(owner, d) && Connects(outer, owner, inner, s, d)
        ensures Survives(ports, outer, owner, inner, MsgEdge(s, d))
      {
        PathsAreDirectOrThrough(outer, owner, inner, s, d);
        SurvivesExactlyWhenDirect(ports, outer, owner, inner, s, d);
      }
    } else {
      var s, d :|
        Plain(owner, s) && Plain(owner, d) && Through(outer, owner, inner, s, d) && !Direct(outer, owner, inner, s, d);
      PathsAreDirectOrThrough(outer, owner, inner, s, d);
      SurvivesExactlyWhenDirect(ports, outer, owner, inner, s, d);
    }
  }

  /** And no edge survives between plain blocks that no path connects. */
  lemma NothingIsInvented(ports: Ports, outer: seq<MsgEdge>, owner: nat, inner: seq<MsgEdge>, s: MsgEndpoint,
                          d: MsgEndpoint)
    requires RewriteAll(ports, outer, owner, inner).ok && Straight(outer, owner, inner)
    requires Plain(owner, s) && Plain(owner, d) && Survives(ports, outer, owner, inner, MsgEdge(s, d))
    ensures Connects(outer, owner, inner, s, d)
  {
    SurvivesExactlyWhenDirect(ports, outer, owner, inner, s, d);
    PathsAreDirectOrThrough(outer, owner, inner, s, d);
  }

  /** In particular nothing is lost of a block without an edge straight from an input to an output. */
  lemma WithoutPassingNothingIsLost(ports: Ports, outer: seq<MsgEdge>, owner: nat, inner: seq<MsgEdge>)
    requires RewriteAll(ports, outer, owner, inner).ok && Straight(outer, owner, inner)
    requires forall q :: q in inner ==> !(Inward(owner, q) && ToOwner(owner, q))
    ensures NoPathLost(ports, outer, owner, inner)
  {
    forall c | Chain(outer, owner, inner, c) ensures |c| < 2 {
      assert |c| < 2 || PassesOn(owner, inner, c[0], c[1]);
    }
    NoPathLostExactlyWhen(ports, outer, owner, inner);
  }

  /** The block's message edges are flattened, and then the hierarchical ones cleared. */
  method FlattenAndClear(g: MessageGraph, owner: nat, inner: seq<MsgEdge>) returns (ok: bool)
    requires forall q :: q in inner && !Internal(owner, q) ==> !Same(q.src, q.dst)
    modifies g
    ensures ok == RewriteAll(g.ports, old(g.msgEdges), owner, inner).ok
    ensures ok ==> forall x :: x in g.msgEdges <==> Survives(g.ports, old(g.msgEdges), owner, inner, x)
  {
    ok := g.FlattenMessages(owner, inner);
    if ok {
      g.ClearHier();
    }
  }
}

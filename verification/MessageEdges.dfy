/**
 Message edges of a flat flowgraph, and how flattening a hierarchical block rewrites them: edges on
 its ports are joined with the edges inside, then the edges on the ports are dropped.
 */
module MessageEdges {

  datatype MsgEndpoint = MsgEndpoint(block: nat, port: string, isHier: bool)

  datatype MsgEdge = MsgEdge(src: MsgEndpoint, dst: MsgEndpoint)

  /** Endpoint equality: block and port, whatever the hierarchical flag says. */
  predicate Same(a: MsgEndpoint, b: MsgEndpoint) {
    a.block == b.block && a.port == b.port
  }

  predicate Matches(x: MsgEdge, e: MsgEndpoint, isSrc: bool) {
    Same(if isSrc then x.src else x.dst, e)
  }

  function Redirect(x: MsgEdge, r: MsgEndpoint, isSrc: bool): MsgEdge {
    if isSrc then MsgEdge(r, x.dst) else MsgEdge(x.src, r)
  }

  // ------------------------------------------------------------------------------------
  // One replacement
  // ------------------------------------------------------------------------------------

  /** The edges a replacement appends for the edges of `es`. */
  function Redirected(es: seq<MsgEdge>, e: MsgEndpoint, r: MsgEndpoint, isSrc: bool): (a: seq<MsgEdge>)
    ensures |a| <= |es|
  {
    if es == [] then []
    else
      Redirected(es[..|es| - 1], e, r, isSrc) +
      (if Matches(es[|es| - 1], e, isSrc) then [Redirect(es[|es| - 1], r, isSrc)] else [])
  }

  lemma {:induction false} RedirectedMembers(es: seq<MsgEdge>, e: MsgEndpoint, r: MsgEndpoint, isSrc: bool, x: MsgEdge)
    ensures x in Redirected(es, e, r, isSrc) <==>
            exists y :: y in es && Matches(y, e, isSrc) && x == Redirect(y, r, isSrc)
  {
    if es != [] {
      var t, last := es[..|es| - 1], es[|es| - 1];
      assert es == t + [last];
      RedirectedMembers(t, e, r, isSrc, x);
    }
  }

  /** One turn of the scan: look at edge i, perhaps append its redirection. */
  function ScanStep(es: seq<MsgEdge>, i: nat, e: MsgEndpoint, r: MsgEndpoint, isSrc: bool): seq<MsgEdge>
    requires i < |es|
  {
    if Matches(es[i], e, isSrc) then es + [Redirect(es[i], r, isSrc)] else es
  }

  /** The list after `k` turns, from edge i on; turns past the end change nothing. */
  function Scanned(es: seq<MsgEdge>, i: nat, e: MsgEndpoint, r: MsgEndpoint, isSrc: bool, k: nat): seq<MsgEdge>
    decreases k
  {
    if k == 0 || i >= |es| then es else Scanned(ScanStep(es, i, e, r, isSrc), i + 1, e, r, isSrc, k - 1)
  }

  /** The scan has edges left to look at after any number of turns. */
  ghost predicate NeverEnds(es: seq<MsgEdge>, i: nat, e: MsgEndpoint, r: MsgEndpoint, isSrc: bool) {
    forall k: nat :: |Scanned(es, i, e, r, isSrc, k)| > i + k
  }

  lemma {:induction false} KeepsAppending(es: seq<MsgEdge>, i: nat, e: MsgEndpoint, r: MsgEndpoint, isSrc: bool, k: nat)
    requires Same(e, r) && exists j :: i <= j < |es| && Matches(es[j], e, isSrc)
    ensures |Scanned(es, i, e, r, isSrc, k)| > i + k
    decreases k
  {
    if k > 0 {
      var next := ScanStep(es, i, e, r, isSrc);
      var j :| i <= j < |es| && Matches(es[j], e, isSrc);
      if j == i {
        assert Matches(next[|es|], e, isSrc);
      } else {
        assert Matches(next[j], e, isSrc);
      }
      KeepsAppending(next, i + 1, e, r, isSrc, k - 1);
    }
  }

  /** Matching edges from the i-th on. */
  function Pending(es: seq<MsgEdge>, i: nat, e: MsgEndpoint, isSrc: bool): nat
    requires i <= |es|
    decreases |es| - i
  {
    if i == |es| then 0 else (if Matches(es[i], e, isSrc) then 1 else 0) + Pending(es, i + 1, e, isSrc)
  }

  lemma {:induction false} PendingAppend(es: seq<MsgEdge>, i: nat, e: MsgEndpoint, isSrc: bool, x: MsgEdge)
    requires i <= |es| && !Matches(x, e, isSrc)
    ensures Pending(es + [x], i, e, isSrc) == Pending(es, i, e, isSrc)
    decreases |es| - i
  {
    if i < |es| {
      PendingAppend(es, i + 1, e, isSrc, x);
    }
  }

  lemma {:induction false} RunsOut(es: seq<MsgEdge>, i: nat, e: MsgEndpoint, r: MsgEndpoint, isSrc: bool)
    requires i <= |es| && (!Same(e, r) || Pending(es, i, e, isSrc) == 0)
    ensures var k := |es| - i + Pending(es, i, e, isSrc); |Scanned(es, i, e, r, isSrc, k)| == i + k
    decreases |es| - i + Pending(es, i, e, isSrc)
  {
    if i < |es| {
      if Matches(es[i], e, isSrc) {
        PendingAppend(es, i + 1, e, isSrc, Redirect(es[i], r, isSrc));
      }
      RunsOut(ScanStep(es, i, e, r, isSrc), i + 1, e, r, isSrc);
    }
  }

  lemma {:induction false} PendingMeans(es: seq<MsgEdge>, i: nat, e: MsgEndpoint, isSrc: bool)
    requires i <= |es|
    ensures Pending(es, i, e, isSrc) > 0 <==> exists j :: i <= j < |es| && Matches(es[j], e, isSrc)
    decreases |es| - i
  {
    if i < |es| {
      PendingMeans(es, i + 1, e, isSrc);
    }
  }

  /** Replacing an endpoint by itself never ends once an edge matches; any other replacement ends. */
  lemma ReplacementEndsUnlessSame(es: seq<MsgEdge>, e: MsgEndpoint, r: MsgEndpoint, isSrc: bool)
    ensures NeverEnds(es, 0, e, r, isSrc) <==> Same(e, r) && exists x :: x in es && Matches(x, e, isSrc)
  {
    PendingMeans(es, 0, e, isSrc);
    if Same(e, r) && exists x :: x in es && Matches(x, e, isSrc) {
      var x :| x in es && Matches(x, e, isSrc);
      var j :| 0 <= j < |es| && es[j] == x;
      forall k: nat ensures |Scanned(es, 0, e, r, isSrc, k)| > 0 + k {
        KeepsAppending(es, 0, e, r, isSrc, k);
      }
    } else {
      RunsOut(es, 0, e, r, isSrc);
      assert !(|Scanned(es, 0, e, r, isSrc, |es| + Pending(es, 0, e, isSrc))| > 0 + (|es| + Pending(es, 0, e, isSrc)));
    }
  }

  function Filter(es: seq<MsgEdge>, keep: MsgEdge -> bool): (r: seq<MsgEdge>)
    ensures |r| <= |es|
    ensures forall x :: x in r <==> x in es && keep(x)
  {
    if es == [] then []
    else
      assert es == [es[0]] + es[1..];
      Kept(es[0], keep) + Filter(es[1..], keep)
  }

  function Kept(x: MsgEdge, keep: MsgEdge -> bool): seq<MsgEdge> {
    if keep(x) then [x] else []
  }

  // ------------------------------------------------------------------------------------
  // The edges of one hierarchical block
  // ------------------------------------------------------------------------------------

  /** An edge inside that starts at one of the owner's own input ports. */
  predicate Inward(owner: nat, q: MsgEdge) {
    q.src.isHier && q.src.block == owner
  }

  /** An edge inside that ends at one of the owner's own output ports. */
  predicate Outward(owner: nat, q: MsgEdge) {
    !Inward(owner, q) && q.dst.isHier && q.dst.block == owner
  }

  predicate Internal(owner: nat, q: MsgEdge) {
    !Inward(owner, q) && !Outward(owner, q)
  }

  /** d is a destination that an edge inside starts from, so edges to d are joined with it. */
  predicate ReplacedDst(owner: nat, inner: seq<MsgEdge>, d: MsgEndpoint) {
    exists q :: q in inner && Inward(owner, q) && Same(d, q.src)
  }

  predicate ReplacedSrc(owner: nat, inner: seq<MsgEdge>, s: MsgEndpoint) {
    exists q :: q in inner && Outward(owner, q) && Same(s, q.dst)
  }

  /** d' is d itself, or the far end of an inner edge from the port d. */
  predicate DstImage(owner: nat, inner: seq<MsgEdge>, d: MsgEndpoint, d': MsgEndpoint) {
    d' == d || exists q :: q in inner && Inward(owner, q) && Same(d, q.src) && d' == q.dst
  }

  predicate SrcImage(owner: nat, inner: seq<MsgEdge>, s: MsgEndpoint, s': MsgEndpoint) {
    s' == s || exists q :: q in inner && Outward(owner, q) && Same(s, q.dst) && s' == q.src
  }

  /** x comes from an outer edge by replacing either end or neither. */
  ghost predicate Image(outer: seq<MsgEdge>, owner: nat, inner: seq<MsgEdge>, x: MsgEdge) {
    exists y :: y in outer && SrcImage(owner, inner, y.src, x.src) && DstImage(owner, inner, y.dst, x.dst)
  }

  ghost predicate InnerEdge(owner: nat, inner: seq<MsgEdge>, x: MsgEdge) {
    x in inner && Internal(owner, x)
  }

  /** The edges after the replacements for the inner edges seen so far. */
  ghost predicate Rewritten(outer: seq<MsgEdge>, owner: nat, inner: seq<MsgEdge>, now: seq<MsgEdge>) {
    forall x :: x in now <==> Image(outer, owner, inner, x) || InnerEdge(owner, inner, x)
  }

  /**
   The join: an untouched outer edge stays; an outer edge on a replaced port is composed with every
   inner edge of that port, on both ends if both are replaced; inner edges between blocks are added.
   */
  ghost predicate Joined(outer: seq<MsgEdge>, owner: nat, inner: seq<MsgEdge>, x: MsgEdge) {
    || InnerEdge(owner, inner, x)
    || exists y :: y in outer
         && (if ReplacedSrc(owner, inner, y.src)
             then exists q :: q in inner && Outward(owner, q) && Same(y.src, q.dst) && x.src == q.src
             else x.src == y.src)
         && (if ReplacedDst(owner, inner, y.dst)
             then exists q :: q in inner && Inward(owner, q) && Same(y.dst, q.src) && x.dst == q.dst
             else x.dst == y.dst)
  }

  /** The part of an edge's rewriting that has an end at a port being replaced. */
  predicate OnReplacedPort(owner: nat, inner: seq<MsgEdge>, x: MsgEdge) {
    ReplacedDst(owner, inner, x.dst) || ReplacedSrc(owner, inner, x.src)
  }

  /**
   No edge inside between blocks touches a replaced port, and no edge inside that an outer edge is
   joined with leads to another replaced port.
   */
  ghost predicate Straight(outer: seq<MsgEdge>, owner: nat, inner: seq<MsgEdge>) {
    && (forall q :: q in inner && Internal(owner, q) ==> !OnReplacedPort(owner, inner, q))
    && (forall y, q :: y in outer && q in inner && Inward(owner, q) && Same(y.dst, q.src) ==>
          !ReplacedDst(owner, inner, q.dst))
    && (forall y, q :: y in outer && q in inner && Outward(owner, q) && Same(y.src, q.dst) ==>
          !ReplacedSrc(owner, inner, q.src))
  }

  // ------------------------------------------------------------------------------------
  // The loop over the inner edges, as a function
  // ------------------------------------------------------------------------------------

  datatype Step = Step(ok: bool, edges: seq<MsgEdge>)

  type Ports = set<(nat, string)>

  predicate HasPort(ports: Ports, e: MsgEndpoint) {
    (e.block, e.port) in ports
  }

  predicate AlreadyThere(es: seq<MsgEdge>, x: MsgEdge) {
    exists y :: y in es && Same(y.src, x.src) && Same(y.dst, x.dst)
  }

  function Connecting(ports: Ports, es: seq<MsgEdge>, x: MsgEdge): Step {
    if HasPort(ports, x.src) && HasPort(ports, x.dst) && !AlreadyThere(es, x) then Step(true, es + [x])
    else Step(false, es)
  }

  function RewriteOne(ports: Ports, es: seq<MsgEdge>, owner: nat, q: MsgEdge): Step {
    if Inward(owner, q) then Step(true, es + Redirected(es, q.src, q.dst, false))
    else if Outward(owner, q) then Step(true, es + Redirected(es, q.dst, q.src, true))
    else Connecting(ports, es, q)
  }

  function RewriteAll(ports: Ports, outer: seq<MsgEdge>, owner: nat, inner: seq<MsgEdge>): Step {
    if |inner| == 0 then Step(true, outer)
    else
      var before := RewriteAll(ports, outer, owner, inner[..|inner| - 1]);
      if before.ok then RewriteOne(ports, before.edges, owner, inner[|inner| - 1]) else before
  }

  lemma ImagesGrow(outer: seq<MsgEdge>, owner: nat, seen: seq<MsgEdge>, q: MsgEdge, x: MsgEdge)
    ensures Image(outer, owner, seen, x) ==> Image(outer, owner, seen + [q], x)
  {
    if Image(outer, owner, seen, x) {
      var y :| y in outer && SrcImage(owner, seen, y.src, x.src) && DstImage(owner, seen, y.dst, x.dst);
      assert forall p :: p in seen ==> p in seen + [q];
      assert SrcImage(owner, seen + [q], y.src, x.src) && DstImage(owner, seen + [q], y.dst, x.dst);
    }
  }

  lemma InwardSound(outer: seq<MsgEdge>, owner: nat, all: seq<MsgEdge>, seen: seq<MsgEdge>, q: MsgEdge, z: MsgEdge)
    requires Straight(outer, owner, all) && q in all && (forall p :: p in seen ==> p in all) && Inward(owner, q)
    requires Matches(z, q.src, false) && (Image(outer, owner, seen, z) || InnerEdge(owner, seen, z))
    ensures Image(outer, owner, seen + [q], Redirect(z, q.dst, false))
  {
    var next, x := seen + [q], Redirect(z, q.dst, false);
    assert ReplacedDst(owner, all, z.dst);
    assert !InnerEdge(owner, seen, z);
    var y :| y in outer && SrcImage(owner, seen, y.src, z.src) && DstImage(owner, seen, y.dst, z.dst);
    assert z.dst == y.dst;
    assert q in next && DstImage(owner, next, y.dst, x.dst);
    assert SrcImage(owner, next, y.src, x.src);
  }

  lemma InwardComplete(outer: seq<MsgEdge>, owner: nat, seen: seq<MsgEdge>, q: MsgEdge, x: MsgEdge) returns (z: MsgEdge)
    requires Inward(owner, q) && Image(outer, owner, seen + [q], x) && !Image(outer, owner, seen, x)
    ensures Image(outer, owner, seen, z) && Matches(z, q.src, false) && x == Redirect(z, q.dst, false)
  {
    var next := seen + [q];
    var y :| y in outer && SrcImage(owner, next, y.src, x.src) && DstImage(owner, next, y.dst, x.dst);
    assert SrcImage(owner, seen, y.src, x.src);
    assert Same(y.dst, q.src) && x.dst == q.dst;
    z := MsgEdge(x.src, y.dst);
    assert DstImage(owner, seen, y.dst, z.dst);
  }

  lemma InwardStep(outer: seq<MsgEdge>, owner: nat, all: seq<MsgEdge>, seen: seq<MsgEdge>, q: MsgEdge,
                   now: seq<MsgEdge>)
    requires Straight(outer, owner, all) && Rewritten(outer, owner, seen, now)
    requires q in all && (forall p :: p in seen ==> p in all) && Inward(owner, q)
    ensures Rewritten(outer, owner, seen + [q], now + Redirected(now, q.src, q.dst, false))
  {
    var next, added := seen + [q], Redirected(now, q.src, q.dst, false);
    forall x ensures x in now + added <==> Image(outer, owner, next, x) || InnerEdge(owner, next, x) {
      RedirectedMembers(now, q.src, q.dst, false, x);
      ImagesGrow(outer, owner, seen, q, x);
      assert InnerEdge(owner, next, x) <==> InnerEdge(owner, seen, x);
      if x in added {
        var z :| z in now && Matches(z, q.src, false) && x == Redirect(z, q.dst, false);
        InwardSound(outer, owner, all, seen, q, z);
      }
      if Image(outer, owner, next, x) && !Image(outer, owner, seen, x) {
        var z := InwardComplete(outer, owner, seen, q, x);
        assert z in now;
      }
    }
  }

  lemma OutwardSound(outer: seq<MsgEdge>, owner: nat, all: seq<MsgEdge>, seen: seq<MsgEdge>, q: MsgEdge, z: MsgEdge)
    requires Straight(outer, owner, all) && q in all && (forall p :: p in seen ==> p in all) && Outward(owner, q)
    requires Matches(z, q.dst, true) && (Image(outer, owner, seen, z) || InnerEdge(owner, seen, z))
    ensures Image(outer, owner, seen + [q], Redirect(z, q.src, true))
  {
    var next, x := seen + [q], Redirect(z, q.src, true);
    assert ReplacedSrc(owner, all, z.src);
    assert !InnerEdge(owner, seen, z);
    var y :| y in outer && SrcImage(owner, seen, y.src, z.src) && DstImage(owner, seen, y.dst, z.dst);
    assert z.src == y.src;
    assert q in next && SrcImage(owner, next, y.src, x.src);
    assert DstImage(owner, next, y.dst, x.dst);
  }

  lemma OutwardComplete(outer: seq<MsgEdge>, owner: nat, seen: seq<MsgEdge>, q: MsgEdge, x: MsgEdge)
    returns (z: MsgEdge)
    requires Outward(owner, q) && Image(outer, owner, seen + [q], x) && !Image(outer, owner, seen, x)
    ensures Image(outer, owner, seen, z) && Matches(z, q.dst, true) && x == Redirect(z, q.src, true)
  {
    var next := seen + [q];
    var y :| y in outer && SrcImage(owner, next, y.src, x.src) && DstImage(owner, next, y.dst, x.dst);
    assert DstImage(owner, seen, y.dst, x.dst);
    assert Same(y.src, q.dst) && x.src == q.src;
    z := MsgEdge(y.src, x.dst);
    assert SrcImage(owner, seen, y.src, z.src);
  }

  lemma OutwardStep(outer: seq<MsgEdge>, owner: nat, all: seq<MsgEdge>, seen: seq<MsgEdge>, q: MsgEdge,
                    now: seq<MsgEdge>)
    requires Straight(outer, owner, all) && Rewritten(outer, owner, seen, now)
    requires q in all && (forall p :: p in seen ==> p in all) && Outward(owner, q)
    ensures Rewritten(outer, owner, seen + [q], now + Redirected(now, q.dst, q.src, true))
  {
    var next, added := seen + [q], Redirected(now, q.dst, q.src, true);
    forall x ensures x in now + added <==> Image(outer, owner, next, x) || InnerEdge(owner, next, x) {
      RedirectedMembers(now, q.dst, q.src, true, x);
      ImagesGrow(outer, owner, seen, q, x);
      assert InnerEdge(owner, next, x) <==> InnerEdge(owner, seen, x);
      if x in added {
        var z :| z in now && Matches(z, q.dst, true) && x == Redirect(z, q.src, true);
        OutwardSound(outer, owner, all, seen, q, z);
      }
      if Image(outer, owner, next, x) && !Image(outer, owner, seen, x) {
        var z := OutwardComplete(outer, owner, seen, q, x);
        assert z in now;
      }
    }
  }

  lemma InternalStep(outer: seq<MsgEdge>, owner: nat, seen: seq<MsgEdge>, q: MsgEdge, now: seq<MsgEdge>)
    requires Rewritten(outer, owner, seen, now) && Internal(owner, q)
    ensures Rewritten(outer, owner, seen + [q], now + [q])
  {
    var next := seen + [q];
    forall x ensures x in now + [q] <==> Image(outer, owner, next, x) || InnerEdge(owner, next, x) {
      forall y {:trigger SrcImage(owner, next, y.src, x.src)} | y in outer
        ensures SrcImage(owner, next, y.src, x.src) == SrcImage(owner, seen, y.src, x.src)
        ensures DstImage(owner, next, y.dst, x.dst) == DstImage(owner, seen, y.dst, x.dst)
      {
        assert forall p :: p in seen ==> p in next;
      }
      assert Image(outer, owner, next, x) == Image(outer, owner, seen, x);
    }
  }

  lemma {:induction false} LoopRewrites(ports: Ports, outer: seq<MsgEdge>, owner: nat, all: seq<MsgEdge>, k: nat)
    requires k <= |all| && Straight(outer, owner, all) && RewriteAll(ports, outer, owner, all[..k]).ok
    ensures Rewritten(outer, owner, all[..k], RewriteAll(ports, outer, owner, all[..k]).edges)
  {
    if k == 0 {
      forall x ensures x in outer <==> Image(outer, owner, [], x) || InnerEdge(owner, [], x) {
        if x in outer {
          assert SrcImage(owner, [], x.src, x.src) && DstImage(owner, [], x.dst, x.dst);
        }
        if Image(outer, owner, [], x) {
          var y :| y in outer && SrcImage(owner, [], y.src, x.src) && DstImage(owner, [], y.dst, x.dst);
          assert x == y;
        }
      }
    } else {
      assert all[..k][..k - 1] == all[..k - 1] && all[..k] == all[..k - 1] + [all[k - 1]];
      LoopRewrites(ports, outer, owner, all, k - 1);
      var before, q := RewriteAll(ports, outer, owner, all[..k - 1]).edges, all[k - 1];
      if Inward(owner, q) {
        InwardStep(outer, owner, all, all[..k - 1], q, before);
      } else if Outward(owner, q) {
        OutwardStep(outer, owner, all, all[..k - 1], q, before);
      } else {
        InternalStep(outer, owner, all[..k - 1], q, before);
      }
    }
  }

  /** The edges left once the replaced ports are cleared. */
  predicate Left(ports: Ports, outer: seq<MsgEdge>, owner: nat, inner: seq<MsgEdge>, x: MsgEdge) {
    x in RewriteAll(ports, outer, owner, inner).edges && !OnReplacedPort(owner, inner, x)
  }

  lemma JoinedIsLeft(ports: Ports, outer: seq<MsgEdge>, owner: nat, inner: seq<MsgEdge>, x: MsgEdge)
    requires Straight(outer, owner, inner) && RewriteAll(ports, outer, owner, inner).ok
    ensures Left(ports, outer, owner, inner, x) <==> Joined(outer, owner, inner, x)
  {
    assert inner[..|inner|] == inner;
    LoopRewrites(ports, outer, owner, inner, |inner|);
    if Joined(outer, owner, inner, x) && !InnerEdge(owner, inner, x) {
      var y :| y in outer
           && (if ReplacedSrc(owner, inner, y.src)
               then exists q :: q in inner && Outward(owner, q) && Same(y.src, q.dst) && x.src == q.src
               else x.src == y.src)
           && (if ReplacedDst(owner, inner, y.dst)
               then exists q :: q in inner && Inward(owner, q) && Same(y.dst, q.src) && x.dst == q.dst
               else x.dst == y.dst);
      assert SrcImage(owner, inner, y.src, x.src) && DstImage(owner, inner, y.dst, x.dst);
    }
  }

  lemma CrookedIsCleared(ports: Ports, outer: seq<MsgEdge>, owner: nat, inner: seq<MsgEdge>) returns (x: MsgEdge)
    requires !Straight(outer, owner, inner)
    ensures Joined(outer, owner, inner, x) && !Left(ports, outer, owner, inner, x)
  {
    if q :| q in inner && Internal(owner, q) && OnReplacedPort(owner, inner, q) {
      x := q;
    } else if y, q :|
      y in outer && q in inner && Inward(owner, q) && Same(y.dst, q.src) && ReplacedDst(owner, inner, q.dst) {
      x := CrookedInward(ports, outer, owner, inner, y, q);
    } else {
      var y, q :|
        y in outer && q in inner && Outward(owner, q) && Same(y.src, q.dst) && ReplacedSrc(owner, inner, q.src);
      x := CrookedOutward(ports, outer, owner, inner, y, q);
    }
  }

  lemma CrookedInward(ports: Ports, outer: seq<MsgEdge>, owner: nat, inner: seq<MsgEdge>, y: MsgEdge, q: MsgEdge)
    returns (x: MsgEdge)
    requires y in outer && q in inner && Inward(owner, q) && Same(y.dst, q.src) && ReplacedDst(owner, inner, q.dst)
    ensures Joined(outer, owner, inner, x) && !Left(ports, outer, owner, inner, x)
  {
    x := MsgEdge(y.src, q.dst);
    if ReplacedSrc(owner, inner, y.src) {
      var p :| p in inner && Outward(owner, p) && Same(y.src, p.dst);
      x := MsgEdge(p.src, q.dst);
    }
  }

  lemma CrookedOutward(ports: Ports, outer: seq<MsgEdge>, owner: nat, inner: seq<MsgEdge>, y: MsgEdge, q: MsgEdge)
    returns (x: MsgEdge)
    requires y in outer && q in inner && Outward(owner, q) && Same(y.src, q.dst) && ReplacedSrc(owner, inner, q.src)
    ensures Joined(outer, owner, inner, x) && !Left(ports, outer, owner, inner, x)
  {
    x := MsgEdge(q.src, y.dst);
    if ReplacedDst(owner, inner, y.dst) {
      var p :| p in inner && Inward(owner, p) && Same(y.dst, p.src);
      x := MsgEdge(q.src, p.dst);
    }
  }

  /**
   When no connection is refused, the edges left are exactly the join if and only if no joined edge
   can lead back to a port being replaced.
   */
  lemma RewritingIsJoinWhenStraight(ports: Ports, outer: seq<MsgEdge>, owner: nat, inner: seq<MsgEdge>)
    requires RewriteAll(ports, outer, owner, inner).ok
    ensures Straight(outer, owner, inner) <==>
            forall x :: Left(ports, outer, owner, inner, x) <==> Joined(outer, owner, inner, x)
  {
    if Straight(outer, owner, inner) {
      forall x ensures Left(ports, outer, owner, inner, x) <==> Joined(outer, owner, inner, x) {
        JoinedIsLeft(ports, outer, owner, inner, x);
      }
    } else {
      var x := CrookedIsCleared(ports, outer, owner, inner);
    }
  }

  // ------------------------------------------------------------------------------------
  // The flat flowgraph's list
  // ------------------------------------------------------------------------------------

  function Off(e: MsgEndpoint, isSrc: bool): MsgEdge -> bool {
    x => !Matches(x, e, isSrc)
  }

  lemma OffMeans(e: MsgEndpoint, isSrc: bool, x: MsgEdge)
    ensures Off(e, isSrc)(x) <==> !Matches(x, e, isSrc)
  {
  }

  predicate TouchesHier(x: MsgEdge) {
    x.src.isHier || x.dst.isHier
  }

  /** The list once every edge from the i-th on was passed over or taken out. */
  function Erased(es: seq<MsgEdge>, i: nat, keep: MsgEdge -> bool): seq<MsgEdge>
    decreases |es| - i
  {
    if i >= |es| then es
    else if keep(es[i]) then Erased(es, i + 1, keep)
    else Erased(es[..i] + es[i + 1..], i, keep)
  }

  /** The edge at the front of what is left is passed over, or taken out. */
  lemma FrontIsErased(kept: seq<MsgEdge>, rest: seq<MsgEdge>, keep: MsgEdge -> bool)
    requires rest != []
    ensures Erased(kept + rest, |kept|, keep) ==
            if keep(rest[0]) then Erased((kept + [rest[0]]) + rest[1..], |kept| + 1, keep)
            else Erased(kept + rest[1..], |kept|, keep)
  {
    FrontEdge(kept, rest);
    ErasedOnce(kept + rest, |kept|, keep);
  }

  lemma FrontEdge(kept: seq<MsgEdge>, rest: seq<MsgEdge>)
    requires rest != []
    ensures var es, i := kept + rest, |kept|;
            && i < |es| && es[i] == rest[0]
            && es == (kept + [rest[0]]) + rest[1..] && es[..i] + es[i + 1..] == kept + rest[1..]
  {
  }

  lemma ErasedOnce(es: seq<MsgEdge>, i: nat, keep: MsgEdge -> bool)
    requires i < |es|
    ensures Erased(es, i, keep) ==
            if keep(es[i]) then Erased(es, i + 1, keep) else Erased(es[..i] + es[i + 1..], i, keep)
  {
  }

  lemma FilterOneMore(kept: seq<MsgEdge>, rest: seq<MsgEdge>, keep: MsgEdge -> bool)
    requires rest != []
    ensures kept + Filter(rest, keep) ==
            if keep(rest[0]) then (kept + [rest[0]]) + Filter(rest[1..], keep) else kept + Filter(rest[1..], keep)
  {
    Regroup(kept, Kept(rest[0], keep), Filter(rest[1..], keep));
    NothingMore(kept);
  }

  lemma Regroup(a: seq<MsgEdge>, b: seq<MsgEdge>, c: seq<MsgEdge>)
    ensures a + (b + c) == (a + b) + c
  {
  }

  lemma NothingMore(a: seq<MsgEdge>)
    ensures a + [] == a
  {
  }

  /** With some edges kept and the rest to be looked at, what is left is those and the rest filtered. */
  lemma {:induction false} ErasedRest(kept: seq<MsgEdge>, rest: seq<MsgEdge>, keep: MsgEdge -> bool)
    ensures Erased(kept + rest, |kept|, keep) == kept + Filter(rest, keep)
    decreases |rest|
  {
    if rest != [] {
      FrontIsErased(kept, rest, keep);
      FilterOneMore(kept, rest, keep);
      ErasedRest(if keep(rest[0]) then kept + [rest[0]] else kept, rest[1..], keep);
    }
  }

  lemma EraseIsFilter(es: seq<MsgEdge>, keep: MsgEdge -> bool)
    ensures Erased(es, 0, keep) == Filter(es, keep)
  {
    ErasedRest([], es, keep);
    assert [] + es == es;
  }

  /** After i turns the list is the original one and what its first i edges were redirected to. */
  ghost predicate Grown(first: seq<MsgEdge>, now: seq<MsgEdge>, i: nat, e: MsgEndpoint, r: MsgEndpoint, isSrc: bool) {
    && now == first + RedirectedUpTo(first, i, e, r, isSrc)
    && forall j :: |first| <= j < |now| ==> !Matches(now[j], e, isSrc)
  }

  function RedirectedUpTo(first: seq<MsgEdge>, i: nat, e: MsgEndpoint, r: MsgEndpoint, isSrc: bool): seq<MsgEdge> {
    if i <= |first| then Redirected(first[..i], e, r, isSrc) else Redirected(first, e, r, isSrc)
  }

  lemma RedirectedFurther(first: seq<MsgEdge>, i: nat, e: MsgEndpoint, r: MsgEndpoint, isSrc: bool)
    ensures RedirectedUpTo(first, i + 1, e, r, isSrc) == RedirectedUpTo(first, i, e, r, isSrc) +
              (if i < |first| && Matches(first[i], e, isSrc) then [Redirect(first[i], r, isSrc)] else [])
    ensures |RedirectedUpTo(first, i, e, r, isSrc)| <= |Redirected(first, e, r, isSrc)|
  {
    if i < |first| {
      RedirectedPrefix(first, i, e, r, isSrc);
      RedirectedGrows(first, i, e, r, isSrc);
    } else {
      assert first[..|first|] == first;
    }
  }

  lemma PrefixOfPrefix(es: seq<MsgEdge>, i: nat)
    requires i < |es|
    ensures es[..i + 1][..i] == es[..i] && es[..i + 1][i] == es[i]
  {
  }

  lemma RedirectedPrefix(es: seq<MsgEdge>, i: nat, e: MsgEndpoint, r: MsgEndpoint, isSrc: bool)
    requires i < |es|
    ensures Redirected(es[..i + 1], e, r, isSrc) == Redirected(es[..i], e, r, isSrc) +
              (if Matches(es[i], e, isSrc) then [Redirect(es[i], r, isSrc)] else [])
  {
    var longer := es[..i + 1];
    PrefixOfPrefix(es, i);
    assert |longer| - 1 == i;
  }

  lemma GrownFurther(first: seq<MsgEdge>, now: seq<MsgEdge>, i: nat, e: MsgEndpoint, r: MsgEndpoint, isSrc: bool)
    requires Grown(first, now, i, e, r, isSrc) && i < |now|
    requires !Same(e, r) || forall x :: x in first ==> !Matches(x, e, isSrc)
    ensures Grown(first, ScanStep(now, i, e, r, isSrc), i + 1, e, r, isSrc)
    ensures |now| <= |first| + |Redirected(first, e, r, isSrc)|
  {
    RedirectedFurther(first, i, e, r, isSrc);
    if i < |first| {
      assert now[i] == first[i] && first[i] in first;
    }
  }

  class MessageGraph {
    const ports: Ports
    var msgEdges: seq<MsgEdge>

    constructor (ports: Ports)
      ensures msgEdges == [] && this.ports == ports
    {
      this.ports := ports;
      msgEdges := [];
    }

    /** The list grows while it is scanned; appended edges are scanned too. */
    method ReplaceEndpoint(e: MsgEndpoint, r: MsgEndpoint, isSrc: bool)
      requires !Same(e, r) || forall x :: x in msgEdges ==> !Matches(x, e, isSrc)
      modifies this
      ensures msgEdges == old(msgEdges) + Redirected(old(msgEdges), e, r, isSrc)
    {
      ghost var first := msgEdges;
      var i := 0;
      assert RedirectedUpTo(first, 0, e, r, isSrc) == [];
      while i < |msgEdges|
        invariant i <= |msgEdges| && Grown(first, msgEdges, i, e, r, isSrc)
        decreases |first| + |Redirected(first, e, r, isSrc)| - i
      {
        GrownFurther(first, msgEdges, i, e, r, isSrc);
        if Matches(msgEdges[i], e, isSrc) {
          msgEdges := msgEdges + [Redirect(msgEdges[i], r, isSrc)];
        }
        i := i + 1;
      }
      assert first[..|first|] == first;
    }

    method ClearEndpoint(e: MsgEndpoint, isSrc: bool)
      modifies this
      ensures msgEdges == Filter(old(msgEdges), Off(e, isSrc))
    {
      ghost var keep, all := Off(e, isSrc), Filter(msgEdges, Off(e, isSrc));
      EraseIsFilter(msgEdges, keep);
      var i := 0;
      while i < |msgEdges|
        invariant i <= |msgEdges| && Erased(msgEdges, i, keep) == all
        decreases |msgEdges| - i
      {
        OffMeans(e, isSrc, msgEdges[i]);
        if Matches(msgEdges[i], e, isSrc) {
          msgEdges := msgEdges[..i] + msgEdges[i + 1..];
        } else {
          i := i + 1;
        }
      }
    }

    method ClearHier()
      modifies this
      ensures msgEdges == Filter(old(msgEdges), x => !TouchesHier(x))
    {
      ghost var keep := x => !TouchesHier(x);
      ghost var all := Filter(msgEdges, keep);
      EraseIsFilter(msgEdges, keep);
      var i := 0;
      while i < |msgEdges|
        invariant i <= |msgEdges| && Erased(msgEdges, i, keep) == all
        decreases |msgEdges| - i
      {
        if TouchesHier(msgEdges[i]) {
          msgEdges := msgEdges[..i] + msgEdges[i + 1..];
        } else {
          i := i + 1;
        }
      }
    }

    /** Refuses an unknown port and an edge that is already there. */
    method Connect(src: MsgEndpoint, dst: MsgEndpoint) returns (ok: bool)
      modifies this
      ensures Step(ok, msgEdges) == Connecting(ports, old(msgEdges), MsgEdge(src, dst))
      ensures ok <==>
              && (src.block, src.port) in ports && (dst.block, dst.port) in ports
              && !exists y :: y in old(msgEdges) && Same(y.src, src) && Same(y.dst, dst)
      ensures msgEdges == if ok then old(msgEdges) + [MsgEdge(src, dst)] else old(msgEdges)
    {
      if !HasPort(ports, src) || !HasPort(ports, dst) {
        return false;
      }
      var i := 0;
      while i < |msgEdges|
        invariant i <= |msgEdges|
        invariant forall j :: 0 <= j < i ==> !(Same(msgEdges[j].src, src) && Same(msgEdges[j].dst, dst))
      {
        if Same(msgEdges[i].src, src) && Same(msgEdges[i].dst, dst) {
          assert msgEdges[i] in msgEdges;
          return false;
        }
        i := i + 1;
      }
      msgEdges := msgEdges + [MsgEdge(src, dst)];
      ok := true;
    }

    /**
     Replaces the outer edges on the owner's ports by way of its inner edges, adds the inner edges
     between blocks, then clears the ports that were replaced.
     */
    method FlattenMessages(owner: nat, inner: seq<MsgEdge>) returns (ok: bool)
      requires forall q :: q in inner && !Internal(owner, q) ==> !Same(q.src, q.dst)
      modifies this
      ensures ok == RewriteAll(ports, old(msgEdges), owner, inner).ok
      ensures ok ==> forall x :: x in msgEdges <==> Left(ports, old(msgEdges), owner, inner, x)
      ensures ok && Straight(old(msgEdges), owner, inner) ==>
                forall x :: x in msgEdges <==> Joined(old(msgEdges), owner, inner, x)
    {
      ghost var outer := msgEdges;
      var resolved: seq<(MsgEndpoint, bool)> := [];
      var k := 0;
      while k < |inner|
        invariant k <= |inner|
        invariant RewriteAll(ports, outer, owner, inner[..k]) == Step(true, msgEdges)
        invariant forall p :: p in resolved <==> IsResolved(owner, inner[..k], p)
      {
        var q := inner[k];
        assert inner[..k + 1][..k] == inner[..k] && inner[..k + 1] == inner[..k] + [q];
        if Inward(owner, q) {
          ReplaceEndpoint(q.src, q.dst, false);
          resolved := resolved + [(q.src, false)];
        } else if Outward(owner, q) {
          ReplaceEndpoint(q.dst, q.src, true);
          resolved := resolved + [(q.dst, true)];
        } else {
          ok := Connect(q.src, q.dst);
          if !ok {
            RefusalStays(ports, outer, owner, inner, k + 1);
            return;
          }
        }
        ResolvedGrows(owner, inner[..k], q);
        k := k + 1;
      }
      assert inner[..k] == inner;
      ClearAll(resolved);
      forall x ensures (exists p :: p in resolved && Matches(x, p.0, p.1)) <==> OnReplacedPort(owner, inner, x) {
        ResolvedMeans(owner, inner, resolved, x);
      }
      if Straight(outer, owner, inner) {
        RewritingIsJoinWhenStraight(ports, outer, owner, inner);
      }
      ok := true;
    }

    method ClearAll(resolved: seq<(MsgEndpoint, bool)>)
      modifies this
      ensures forall x :: x in msgEdges <==>
                x in old(msgEdges) && !exists p :: p in resolved && Matches(x, p.0, p.1)
    {
      var n := 0;
      while n < |resolved|
        invariant n <= |resolved|
        invariant forall x :: x in msgEdges <==>
                    x in old(msgEdges) && !exists p :: p in resolved[..n] && Matches(x, p.0, p.1)
      {
        assert resolved[..n + 1] == resolved[..n] + [resolved[n]];
        ClearEndpoint(resolved[n].0, resolved[n].1);
        n := n + 1;
      }
      assert resolved[..n] == resolved;
    }
  }

  lemma RedirectedGrows(es: seq<MsgEdge>, k: nat, e: MsgEndpoint, r: MsgEndpoint, isSrc: bool)
    ensures k <= |es| ==> |Redirected(es[..k], e, r, isSrc)| <= |Redirected(es, e, r, isSrc)|
    decreases |es|
  {
    if k < |es| {
      assert es[..|es| - 1][..k] == es[..k];
      RedirectedGrows(es[..|es| - 1], k, e, r, isSrc);
    } else if k == |es| {
      assert es[..k] == es;
    }
  }

  /** The endpoint and direction cleared for some inner edge. */
  predicate IsResolved(owner: nat, inner: seq<MsgEdge>, p: (MsgEndpoint, bool)) {
    exists q :: q in inner && ((Inward(owner, q) && p == (q.src, false)) || (Outward(owner, q) && p == (q.dst, true)))
  }

  lemma ResolvedGrows(owner: nat, inner: seq<MsgEdge>, q: MsgEdge)
    ensures forall p :: IsResolved(owner, inner + [q], p) <==>
              IsResolved(owner, inner, p) || (Inward(owner, q) && p == (q.src, false)) ||
                (Outward(owner, q) && p == (q.dst, true))
  {
    assert forall x :: x in inner + [q] <==> x in inner || x == q;
  }

  lemma ResolvedMeans(owner: nat, inner: seq<MsgEdge>, resolved: seq<(MsgEndpoint, bool)>, x: MsgEdge)
    requires forall p :: p in resolved <==> IsResolved(owner, inner, p)
    ensures (exists p :: p in resolved && Matches(x, p.0, p.1)) <==> OnReplacedPort(owner, inner, x)
  {
    if ReplacedDst(owner, inner, x.dst) {
      var q :| q in inner && Inward(owner, q) && Same(x.dst, q.src);
      assert IsResolved(owner, inner, (q.src, false));
    }
    if ReplacedSrc(owner, inner, x.src) {
      var q :| q in inner && Outward(owner, q) && Same(x.src, q.dst);
      assert IsResolved(owner, inner, (q.dst, true));
    }
  }

  lemma {:induction false} RefusalStays(ports: Ports, outer: seq<MsgEdge>, owner: nat, inner: seq<MsgEdge>, k: nat)
    requires k <= |inner| && !RewriteAll(ports, outer, owner, inner[..k]).ok
    ensures !RewriteAll(ports, outer, owner, inner).ok
    decreases |inner|
  {
    if k == |inner| {
      assert inner[..k] == inner;
    } else {
      assert inner[..|inner| - 1][..k] == inner[..k];
      RefusalStays(ports, outer, owner, inner[..|inner| - 1], k);
    }
  }

  /**
   The rewriting is refused if and only if, at some edge inside between blocks, one of its ports is unknown or
   an edge between the same ports is there by then.
   */
  lemma {:induction false} RewritingIsRefusedExactlyWhen(ports: Ports, outer: seq<MsgEdge>, owner: nat,
                                                         inner: seq<MsgEdge>)
    ensures !RewriteAll(ports, outer, owner, inner).ok <==>
            exists k :: 0 <= k < |inner| && RefusedAt(ports, outer, owner, inner, k)
  {
    if inner != [] {
      var last := |inner| - 1;
      RewritingIsRefusedExactlyWhen(ports, outer, owner, inner[..last]);
      forall k | 0 <= k < last
        ensures RefusedAt(ports, outer, owner, inner, k) <==> RefusedAt(ports, outer, owner, inner[..last], k)
      {
        assert inner[..last][..k] == inner[..k];
      }
      if RefusedAt(ports, outer, owner, inner, last) {
        assert !RewriteAll(ports, outer, owner, inner).ok;
      }
    }
  }

  predicate RefusedAt(ports: Ports, outer: seq<MsgEdge>, owner: nat, inner: seq<MsgEdge>, k: nat)
    requires k < |inner|
  {
    var q, so := inner[k], RewriteAll(ports, outer, owner, inner[..k]);
    so.ok && Internal(owner, q) &&
      (|| (q.src.block, q.src.port) !in ports || (q.dst.block, q.dst.port) !in ports
       || exists y :: y in so.edges && Same(y.src, q.src) && Same(y.dst, q.dst))
  }

  /**
   A message that only passes through a block is lost: with a -> h.in and h.out -> z outside and
   h.in -> h.out inside, what is left is a -> h.out and h.out -> z, and never a -> z; both touch the
   hierarchical block, so clearing the hierarchical edges leaves nothing.
   */
  lemma PassThroughIsLost(ports: Ports, a: MsgEndpoint, z: MsgEndpoint, owner: nat, i: string, o: string)
    requires a.block != owner && z.block != owner && i != o
    ensures var hi, ho := MsgEndpoint(owner, i, true), MsgEndpoint(owner, o, true);
            var outer, inner := [MsgEdge(a, hi), MsgEdge(ho, z)], [MsgEdge(hi, ho)];
            && RewriteAll(ports, outer, owner, inner).ok
            && (forall x :: Left(ports, outer, owner, inner, x) <==> x == MsgEdge(a, ho) || x == MsgEdge(ho, z))
            && (forall x :: Left(ports, outer, owner, inner, x) ==> TouchesHier(x))
  {
    var hi, ho := MsgEndpoint(owner, i, true), MsgEndpoint(owner, o, true);
    var outer, inner := [MsgEdge(a, hi), MsgEdge(ho, z)], [MsgEdge(hi, ho)];
    var after := RewriteAll(ports, outer, owner, inner);
    assert inner[..|inner| - 1] == [] && RewriteAll(ports, outer, owner, []) == Step(true, outer);
    assert after == RewriteOne(ports, outer, owner, inner[0]);
    assert inner[0] in inner && ReplacedDst(owner, inner, hi);
    assert outer[0] in outer && outer[1] in outer;
    forall x ensures x in after.edges <==> x in outer || x == MsgEdge(a, ho) {
      RedirectedMembers(outer, hi, ho, false, x);
      assert Matches(outer[0], hi, false) && Redirect(outer[0], ho, false) == MsgEdge(a, ho);
    }
    assert !ReplacedDst(owner, inner, ho) && !ReplacedDst(owner, inner, z);
    assert !ReplacedSrc(owner, inner, a) && !ReplacedSrc(owner, inner, ho);
  }
}

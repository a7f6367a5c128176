/** Endpoints, edges, and what paths, cycles and components of an edge list are. */
module Graphs {

  /** A block is known by its address, which is also what vectors of blocks are sorted by. */
  type Block = nat

  datatype Endpoint = Endpoint(block: Block, port: int)

  datatype Edge = Edge(src: Endpoint, dst: Endpoint)

  predicate HasEdge(es: seq<Edge>, a: Block, b: Block) {
    exists e :: e in es && e.src.block == a && e.dst.block == b
  }

  predicate Adjacent(es: seq<Edge>, a: Block, b: Block) {
    HasEdge(es, a, b) || HasEdge(es, b, a)
  }

  ghost predicate IsPath(es: seq<Edge>, p: seq<Block>) {
    forall i :: 0 <= i < |p| - 1 ==> HasEdge(es, p[i], p[i + 1])
  }

  ghost predicate IsWalk(es: seq<Edge>, p: seq<Block>) {
    forall i :: 0 <= i < |p| - 1 ==> Adjacent(es, p[i], p[i + 1])
  }

  ghost predicate IsCycle(es: seq<Edge>, p: seq<Block>) {
    |p| >= 2 && p[0] == p[|p| - 1] && IsPath(es, p)
  }

  ghost predicate HasCycle(es: seq<Edge>, universe: set<Block>) {
    exists p :: IsCycle(es, p) && forall x :: x in p ==> x in universe
  }

  ghost predicate WalkBetween(es: seq<Edge>, p: seq<Block>, a: Block, b: Block) {
    p != [] && p[0] == a && p[|p| - 1] == b && IsWalk(es, p)
  }

  /** Connected by edges taken in either direction. */
  ghost predicate Connected(es: seq<Edge>, a: Block, b: Block) {
    exists p :: WalkBetween(es, p, a, b)
  }

  predicate NoDup<T(==)>(s: seq<T>) {
    forall i, j :: 0 <= i < j < |s| ==> s[i] != s[j]
  }

  function ToSet(s: seq<Block>): set<Block> {
    set x | x in s
  }

  // ------------------------------------------------------------------------------------
  // Sorting without duplicates
  // ------------------------------------------------------------------------------------

  predicate StrictlySorted(s: seq<int>) {
    forall i, j :: 0 <= i < j < |s| ==> s[i] < s[j]
  }

  function Insert(s: seq<int>, x: int): (r: seq<int>)
    requires StrictlySorted(s)
    ensures StrictlySorted(r)
    ensures forall y :: y in r <==> y == x || y in s
  {
    if s == [] then [x]
    else if x == s[0] then s
    else if x < s[0] then
      var r := [x] + s;
      assert r[1..] == s;
      r
    else
      var rest := Insert(s[1..], x);
      var r := [s[0]] + rest;
      assert s == [s[0]] + s[1..];
      assert forall k :: 0 <= k < |rest| ==> s[0] < rest[k] by {
        forall k | 0 <= k < |rest| ensures s[0] < rest[k] {
          var y := rest[k];
          assert y in rest;
          if y != x {
            var i :| 0 <= i < |s[1..]| && s[1..][i] == y;
            assert s[i + 1] == y;
          }
        }
      }
      r
  }

  /** Sorted, each value once. */
  function UniqueVector(v: seq<int>): (r: seq<int>)
    ensures StrictlySorted(r)
    ensures forall y :: y in r <==> y in v
  {
    if v == [] then []
    else
      assert v == v[..|v| - 1] + [v[|v| - 1]];
      Insert(UniqueVector(v[..|v| - 1]), v[|v| - 1])
  }

  // ------------------------------------------------------------------------------------
  // Facts about paths and components
  // ------------------------------------------------------------------------------------

  lemma ConnectedReflexive(es: seq<Edge>, a: Block)
    ensures Connected(es, a, a)
  {
    assert WalkBetween(es, [a], a, a);
  }

  lemma ConnectedStep(es: seq<Edge>, a: Block, b: Block, c: Block)
    requires Adjacent(es, a, b) && Connected(es, b, c)
    ensures Connected(es, a, c)
  {
    var p :| WalkBetween(es, p, b, c);
    var q := [a] + p;
    assert WalkBetween(es, q, a, c) by {
      forall i | 0 <= i < |q| - 1 ensures Adjacent(es, q[i], q[i + 1]) {
        if i > 0 {
          assert Adjacent(es, p[i - 1], p[i]);
        }
      }
    }
  }

  lemma ConnectedSymmetric(es: seq<Edge>, a: Block, b: Block)
    requires Connected(es, a, b)
    ensures Connected(es, b, a)
  {
    var p :| WalkBetween(es, p, a, b);
    var q := seq(|p|, i requires 0 <= i < |p| => p[|p| - 1 - i]);
    assert WalkBetween(es, q, b, a) by {
      forall i | 0 <= i < |q| - 1 ensures Adjacent(es, q[i], q[i + 1]) {
        assert Adjacent(es, p[|p| - 2 - i], p[|p| - 2 - i + 1]);
      }
    }
  }

  lemma ConnectedTransitive(es: seq<Edge>, a: Block, b: Block, c: Block)
    requires Connected(es, a, b) && Connected(es, b, c)
    ensures Connected(es, a, c)
  {
    var p :| WalkBetween(es, p, a, b);
    var q :| WalkBetween(es, q, b, c);
    var w := p + q[1..];
    assert WalkBetween(es, w, a, c) by {
      forall i | 0 <= i < |w| - 1 ensures Adjacent(es, w[i], w[i + 1]) {
        if i < |p| - 1 {
          assert Adjacent(es, p[i], p[i + 1]);
        } else {
          assert Adjacent(es, q[i - |p| + 1], q[i - |p| + 2]);
        }
      }
    }
  }

  ghost predicate ClosedDownstream(es: seq<Edge>, universe: set<Block>) {
    forall a, b :: a in universe && HasEdge(es, a, b) ==> b in universe
  }

  ghost predicate ClosedAdjacent(es: seq<Edge>, universe: set<Block>) {
    forall a, b :: a in universe && Adjacent(es, a, b) ==> b in universe
  }

  /** A set closed under adjacency holds everything connected to its members. */
  lemma {:induction false} ClosedHoldsComponent(es: seq<Edge>, s: set<Block>, p: seq<Block>, a: Block, b: Block)
    requires ClosedAdjacent(es, s) && a in s && WalkBetween(es, p, a, b)
    ensures b in s && forall x :: x in p ==> x in s
  {
    if |p| > 1 {
      assert Adjacent(es, p[0], p[1]);
      var q := p[1..];
      forall i | 0 <= i < |q| - 1 ensures Adjacent(es, q[i], q[i + 1]) {
        assert Adjacent(es, p[i + 1], p[i + 2]);
      }
      ClosedHoldsComponent(es, s, q, p[1], b);
      assert p == [a] + q;
    }
  }

  /** In `order`, every edge goes forward. */
  ghost predicate Forward(es: seq<Edge>, order: seq<Block>) {
    forall i, j :: 0 <= i < |order| && 0 <= j < |order| && HasEdge(es, order[i], order[j]) ==> i < j
  }

  lemma {:induction false} PathClimbs(es: seq<Edge>, order: seq<Block>, p: seq<Block>, i: nat, j: nat)
    requires Forward(es, order) && |p| >= 2 && IsPath(es, p)
    requires forall x :: x in p ==> x in order
    requires i < |order| && order[i] == p[0] && j < |order| && order[j] == p[|p| - 1]
    ensures i < j
    decreases |p|
  {
    assert HasEdge(es, p[0], p[1]);
    if |p| > 2 {
      assert p[1] in p;
      var k :| 0 <= k < |order| && order[k] == p[1];
      var q := p[1..];
      forall i | 0 <= i < |q| - 1 ensures HasEdge(es, q[i], q[i + 1]) {
        assert HasEdge(es, p[i + 1], p[i + 2]);
      }
      PathClimbs(es, order, q, k, j);
    }
  }

  /** A forward order leaves no cycle among its blocks. */
  lemma ForwardHasNoCycle(es: seq<Edge>, order: seq<Block>)
    requires Forward(es, order)
    ensures !HasCycle(es, ToSet(order))
  {
    if HasCycle(es, ToSet(order)) {
      var p :| IsCycle(es, p) && forall x :: x in p ==> x in ToSet(order);
      assert p[0] in p;
      var i :| 0 <= i < |order| && order[i] == p[0];
      PathClimbs(es, order, p, i, i);
    }
  }

  lemma {:induction false} NoDupMultiset<T>(s: seq<T>, x: T)
    requires NoDup(s)
    ensures multiset(s)[x] == if x in s then 1 else 0
  {
    if s != [] {
      var t := s[..|s| - 1];
      assert s == t + [s[|s| - 1]];
      NoDupMultiset(t, x);
    }
  }

  /** Two sequences without duplicates and with the same members are permutations of each other. */
  lemma SameMembersPermute<T>(s: seq<T>, t: seq<T>)
    requires NoDup(s) && NoDup(t) && forall x :: x in s <==> x in t
    ensures multiset(s) == multiset(t)
  {
    forall x ensures multiset(s)[x] == multiset(t)[x] {
      NoDupMultiset(s, x);
      NoDupMultiset(t, x);
    }
  }
}

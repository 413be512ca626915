/** Directed graphs given as an edge list, as the workflow definition stores them. */
module Graphs {
  import opened Prelude

  type Id = string

  datatype Edge = Edge(src: Id, dst: Id)

  /** Consecutive nodes of `p` are joined by edges. */
  ghost predicate IsWalk(edges: seq<Edge>, p: seq<Id>) {
    |p| > 0 && forall i :: 0 <= i < |p| - 1 ==> Edge(p[i], p[i + 1]) in edges
  }

  /** A closed walk through nodes of `ids`. */
  ghost predicate IsCycle(ids: seq<Id>, edges: seq<Edge>, p: seq<Id>) {
    && |p| > 1 && IsWalk(edges, p) && p[0] == p[|p| - 1]
    && forall x :: x in p ==> x in ids
  }

  ghost predicate Cyclic(ids: seq<Id>, edges: seq<Edge>) {
    exists p :: IsCycle(ids, edges, p)
  }

  /** `a` is a proper ancestor of `d`: some walk of at least one edge leads from a to d. */
  ghost predicate Ancestor(edges: seq<Edge>, a: Id, d: Id) {
    exists p :: |p| > 1 && IsWalk(edges, p) && p[0] == a && p[|p| - 1] == d
  }

  /** No edge joins a listed step to an unlisted one (a dangling edge). */
  ghost predicate NoCrossing(ids: seq<Id>, edges: seq<Edge>) {
    forall e :: e in edges ==> (e.src in ids <==> e.dst in ids)
  }

  /** `order` lists the steps once each, and every edge touching a step goes forward in it. */
  ghost predicate IsTopological(ids: seq<Id>, edges: seq<Edge>, order: seq<Id>) {
    && Permutation(order, ids)
    && forall e :: e in edges && (e.src in ids || e.dst in ids) ==> Precedes(order, e.src, e.dst)
  }

  ghost predicate Precedes(order: seq<Id>, a: Id, b: Id) {
    exists i, j :: 0 <= i < j < |order| && order[i] == a && order[j] == b
  }

  /** Steps that a definition may schedule: the listed ones and every edge target. */
  ghost predicate IsNode(ids: seq<Id>, edges: seq<Edge>, x: Id) {
    x in ids || exists e :: e in edges && e.dst == x
  }

  ghost predicate PredsIn(edges: seq<Edge>, x: Id, done: seq<Id>) {
    forall e :: e in edges && e.dst == x ==> e.src in done
  }

  /**
   * `l` is a maximal order in which each node follows all of its predecessors. This is what
   * Kahn's algorithm enumerates, and it is independent of how the queue is ordered.
   */
  ghost predicate KahnOrder(ids: seq<Id>, edges: seq<Edge>, l: seq<Id>) {
    && NoDup(l)
    && (forall i :: 0 <= i < |l| ==> IsNode(ids, edges, l[i]) && PredsIn(edges, l[i], l[..i]))
    && (forall x :: IsNode(ids, edges, x) && PredsIn(edges, x, l) ==> x in l)
  }

  lemma {:induction false} KahnInside(ids: seq<Id>, edges: seq<Edge>, l: seq<Id>, m: seq<Id>, n: nat)
    requires KahnOrder(ids, edges, l) && KahnOrder(ids, edges, m) && n <= |l|
    ensures forall i :: 0 <= i < n ==> l[i] in m
  {
    if n > 0 {
      KahnInside(ids, edges, l, m, n - 1);
      assert PredsIn(edges, l[n - 1], l[..n - 1]);
      assert PredsIn(edges, l[n - 1], m);
    }
  }

  /** However the queue is ordered, the algorithm lists the same nodes. */
  lemma KahnOrdersAgree(ids: seq<Id>, edges: seq<Edge>, l: seq<Id>, m: seq<Id>)
    requires KahnOrder(ids, edges, l) && KahnOrder(ids, edges, m)
    ensures forall x :: x in l <==> x in m
  {
    KahnInside(ids, edges, l, m, |l|);
    KahnInside(ids, edges, m, l, |m|);
  }

  lemma KahnSizesAgree(ids: seq<Id>, edges: seq<Edge>, l: seq<Id>, m: seq<Id>)
    requires KahnOrder(ids, edges, l) && KahnOrder(ids, edges, m)
    ensures |l| == |m|
  {
    KahnOrdersAgree(ids, edges, l, m);
    NoDupCardinality(l);
    NoDupCardinality(m);
    hide KahnOrder;
    assert Elements(l) == Elements(m);
  }

  /** A node left out of a Kahn order heads a backward walk of any length through left-out nodes. */
  lemma {:induction false} BackwardWalk(ids: seq<Id>, edges: seq<Edge>, l: seq<Id>, x: Id, n: nat)
    returns (p: seq<Id>)
    requires KahnOrder(ids, edges, l) && NoCrossing(ids, edges)
    requires x in ids && x !in l
    ensures |p| == n + 1 && IsWalk(edges, p) && p[n] == x
    ensures forall y :: y in p ==> y in ids && y !in l
    decreases n
  {
    if n == 0 {
      p := [x];
    } else {
      assert !PredsIn(edges, x, l);
      var e :| e in edges && e.dst == x && e.src !in l;
      var q := BackwardWalk(ids, edges, l, e.src, n - 1);
      p := q + [x];
      forall i | 0 <= i < |p| - 1 ensures Edge(p[i], p[i + 1]) in edges {
        if i == |p| - 2 { assert e == Edge(p[i], p[i + 1]); }
      }
    }
  }

  lemma RepeatGivesCycle(ids: seq<Id>, edges: seq<Edge>, p: seq<Id>, i: nat, j: nat)
    requires IsWalk(edges, p) && (forall y :: y in p ==> y in ids)
    requires i < j < |p| && p[i] == p[j]
    ensures Cyclic(ids, edges)
  {
    var c := p[i..j + 1];
    forall k | 0 <= k < |c| - 1 ensures Edge(c[k], c[k + 1]) in edges {
      assert c[k] == p[i + k] && c[k + 1] == p[i + k + 1];
    }
    assert forall y :: y in c ==> y in p;
    assert IsCycle(ids, edges, c);
  }

  /** Without dangling edges, a Kahn order that misses a step betrays a cycle. */
  lemma MissedStepGivesCycle(ids: seq<Id>, edges: seq<Edge>, l: seq<Id>, x: Id)
    requires NoDup(ids) && KahnOrder(ids, edges, l) && NoCrossing(ids, edges)
    requires x in ids && x !in l
    ensures Cyclic(ids, edges)
  {
    var p := BackwardWalk(ids, edges, l, x, |ids|);
    Pigeonhole(p, ids);
    var i, j :| 0 <= i < j < |p| && p[i] == p[j];
    RepeatGivesCycle(ids, edges, p, i, j);
  }

  /** A Kahn order without dangling edges lists only declared steps. */
  lemma KahnStaysInside(ids: seq<Id>, edges: seq<Edge>, l: seq<Id>, i: nat)
    requires KahnOrder(ids, edges, l) && NoCrossing(ids, edges) && i < |l|
    ensures l[i] in ids
  {
    if l[i] !in ids {
      var e :| e in edges && e.dst == l[i];
      assert e.src in l[..i];
      var k :| 0 <= k < i && l[k] == e.src;
      KahnStaysInside(ids, edges, l, k);
    }
  }

  /** Walks inside a topological order strictly climb it. */
  lemma {:induction false} WalkClimbs(ids: seq<Id>, edges: seq<Edge>, order: seq<Id>, p: seq<Id>)
    requires IsTopological(ids, edges, order)
    requires |p| > 1 && IsWalk(edges, p) && p[0] in ids
    ensures Precedes(order, p[0], p[|p| - 1])
  {
    var n := |p| - 1;
    assert Edge(p[n - 1], p[n]) in edges;
    if n == 1 {
      assert Precedes(order, p[0], p[1]);
    } else {
      assert IsWalk(edges, p[..n]);
      WalkClimbs(ids, edges, order, p[..n]);
      var i, j :| 0 <= i < j < |order| && order[i] == p[0] && order[j] == p[n - 1];
      assert p[n - 1] in ids;
      var i', j' :| 0 <= i' < j' < |order| && order[i'] == p[n - 1] && order[j'] == p[n];
      assert i' == j;
    }
  }

  lemma TopologicalMeansAcyclic(ids: seq<Id>, edges: seq<Edge>, order: seq<Id>)
    requires IsTopological(ids, edges, order)
    ensures !Cyclic(ids, edges)
  {
    if p :| IsCycle(ids, edges, p) {
      assert p[0] in p;
      WalkClimbs(ids, edges, order, p);
      assert false;
    }
  }

  /**
   * Soundness and completeness of Kahn's algorithm over every edge list, dangling edges
   * included: the enumerated order is a topological order of exactly the declared steps
   * if and only if no edge dangles across the step list and there is no cycle.
   */
  lemma KahnExactness(ids: seq<Id>, edges: seq<Edge>, l: seq<Id>)
    requires NoDup(ids) && KahnOrder(ids, edges, l)
    ensures (|l| == |ids| && IsTopological(ids, edges, l))
       <==> (NoCrossing(ids, edges) && !Cyclic(ids, edges))
  {
    if |l| == |ids| && IsTopological(ids, edges, l) {
      TopologicalMeansAcyclic(ids, edges, l);
    }
    if NoCrossing(ids, edges) && !Cyclic(ids, edges) {
      forall x | x in ids ensures x in l {
        if x !in l { MissedStepGivesCycle(ids, edges, l, x); }
      }
      forall i | 0 <= i < |l| ensures l[i] in ids { KahnStaysInside(ids, edges, l, i); }
      NoDupCardinality(l);
      NoDupCardinality(ids);
      assert Elements(l) == Elements(ids);
      forall e | e in edges && (e.src in ids || e.dst in ids) ensures Precedes(l, e.src, e.dst) {
        assert e.dst in l;
        var j :| 0 <= j < |l| && l[j] == e.dst;
        assert PredsIn(edges, l[j], l[..j]);
        assert e.src in l[..j];
        var i :| 0 <= i < j && l[..j][i] == e.src;
      }
    }
  }

  /**
   * Without dangling edges, the length test at the end of Kahn's algorithm detects a cycle
   * exactly: the order is short if and only if the steps contain a cycle.
   */
  lemma KahnDetectsCycles(ids: seq<Id>, edges: seq<Edge>, l: seq<Id>)
    requires NoDup(ids) && KahnOrder(ids, edges, l) && NoCrossing(ids, edges)
    ensures |l| <= |ids|
    ensures |l| == |ids| <==> !Cyclic(ids, edges)
  {
    KahnExactness(ids, edges, l);
    forall i | 0 <= i < |l| ensures l[i] in ids { KahnStaysInside(ids, edges, l, i); }
    NoDupCardinality(l);
    NoDupCardinality(ids);
    SubsetCardinality(Elements(l), Elements(ids));
    if |l| == |ids| {
      EqualLengthPermutation(l, ids);
      forall x | x in ids ensures x in l {}
      forall e | e in edges && (e.src in ids || e.dst in ids) ensures Precedes(l, e.src, e.dst) {
        var j :| 0 <= j < |l| && l[j] == e.dst;
        assert e.src in l[..j];
        var i :| 0 <= i < j && l[..j][i] == e.src;
      }
    }
  }
}

/**
 * The canvas auto-layout: a recursive longest-path layering over mutable memo tables, and the
 * packing of each layer into rows.
 */
module Layout {
  import opened Prelude
  import opened Graphs

  const LAYER_GAP := 260
  const ROW_GAP := 130

  datatype Position = Position(x: int, y: int)

  /** A walk through listed nodes only. */
  ghost predicate WalkIn(ids: seq<Id>, edges: seq<Edge>, p: seq<Id>) {
    IsWalk(edges, p) && forall x :: x in p ==> x in ids
  }

  ghost predicate Reaches(ids: seq<Id>, edges: seq<Edge>, a: Id, b: Id) {
    exists p :: |p| > 1 && WalkIn(ids, edges, p) && p[0] == a && p[|p| - 1] == b
  }

  ghost predicate IsRoot(ids: seq<Id>, edges: seq<Edge>, x: Id) {
    forall e :: e in edges && e.dst == x ==> e.src !in ids
  }

  ghost predicate EndsAt(ids: seq<Id>, edges: seq<Edge>, p: seq<Id>, x: Id) {
    WalkIn(ids, edges, p) && p[|p| - 1] == x
  }

  /** The longest walk to `x` has `d` edges, and some walk of that length starts at a root. */
  ghost predicate Longest(ids: seq<Id>, edges: seq<Edge>, x: Id, d: nat) {
    && (exists p :: EndsAt(ids, edges, p, x) && |p| == d + 1 && IsRoot(ids, edges, p[0]))
    && (forall p :: EndsAt(ids, edges, p, x) ==> |p| <= d + 1)
  }

  /** The parents the layering looks at: sources of edges inside the node list, in edge order. */
  ghost predicate ParentsOf(ids: seq<Id>, edges: seq<Edge>, x: Id, parents: seq<Id>) {
    forall q :: q in parents <==> q in ids && x in ids && Edge(q, x) in edges
  }

  /** The node-count cap can never bite: without cycles a walk visits each node at most once. */
  lemma AcyclicWalkIsShort(ids: seq<Id>, edges: seq<Edge>, p: seq<Id>)
    requires !Cyclic(ids, edges) && WalkIn(ids, edges, p)
    ensures |p| <= |ids|
  {
    forall i, j | 0 <= i < j < |p| ensures p[i] != p[j] {
      if p[i] == p[j] { RepeatGivesCycle(ids, edges, p, i, j); }
    }
    NoDupCardinality(p);
    ElementsBound(ids);
    SubsetCardinality(Elements(p), Elements(ids));
  }

  lemma SelfReachIsCycle(ids: seq<Id>, edges: seq<Edge>, x: Id)
    requires !Cyclic(ids, edges) ==> Reaches(ids, edges, x, x)
    ensures Cyclic(ids, edges)
  {
    if !Cyclic(ids, edges) {
      var p :| |p| > 1 && WalkIn(ids, edges, p) && p[0] == x && p[|p| - 1] == x;
      assert IsCycle(ids, edges, p);
    }
  }

  lemma ReachesBack(ids: seq<Id>, edges: seq<Edge>, q: Id, x: Id, v: Id)
    requires q in ids && x in ids && Edge(q, x) in edges
    requires v == x || Reaches(ids, edges, x, v)
    ensures Reaches(ids, edges, q, v)
  {
    if v == x {
      assert WalkIn(ids, edges, [q, x]);
    } else {
      var p :| |p| > 1 && WalkIn(ids, edges, p) && p[0] == x && p[|p| - 1] == v;
      var w := [q] + p;
      forall i | 0 <= i < |w| - 1 ensures Edge(w[i], w[i + 1]) in edges {
        if i > 0 { assert w[i] == p[i - 1] && w[i + 1] == p[i]; }
      }
      assert WalkIn(ids, edges, w);
    }
  }

  lemma ExtendWalk(ids: seq<Id>, edges: seq<Edge>, p: seq<Id>, q: Id, x: Id)
    requires EndsAt(ids, edges, p, q) && x in ids && Edge(q, x) in edges
    ensures EndsAt(ids, edges, p + [x], x)
  {
    var w := p + [x];
    forall i | 0 <= i < |w| - 1 ensures Edge(w[i], w[i + 1]) in edges {
      if i < |p| - 1 { assert w[i] == p[i] && w[i + 1] == p[i + 1]; }
    }
  }

  lemma ShortenWalk(ids: seq<Id>, edges: seq<Edge>, p: seq<Id>, x: Id)
    requires EndsAt(ids, edges, p, x) && |p| > 1
    ensures EndsAt(ids, edges, p[..|p| - 1], p[|p| - 2])
    ensures p[|p| - 2] in ids && Edge(p[|p| - 2], x) in edges
  {
    var n := |p| - 1;
    assert Edge(p[n - 1], p[n]) in edges;
    assert p[n - 1] in p;
  }

  /** The recurrence of longest-path layering is exact. */
  lemma LongestFromParents(ids: seq<Id>, edges: seq<Edge>, x: Id, parents: seq<Id>, cols: seq<nat>, d: nat)
    requires x in ids && ParentsOf(ids, edges, x, parents) && |cols| == |parents|
    requires forall i :: 0 <= i < |parents| ==> Longest(ids, edges, parents[i], cols[i]) && cols[i] < d
    requires if parents == [] then d == 0 else exists i :: 0 <= i < |parents| && d == cols[i] + 1
    ensures Longest(ids, edges, x, d)
  {
    if parents == [] {
      assert EndsAt(ids, edges, [x], x);
      assert forall e :: e in edges && e.dst == x && e.src in ids ==> Edge(e.src, x) in edges && e.src in parents;
    } else {
      var i :| 0 <= i < |parents| && d == cols[i] + 1;
      var p :| EndsAt(ids, edges, p, parents[i]) && |p| == cols[i] + 1 && IsRoot(ids, edges, p[0]);
      assert parents[i] in parents;
      ExtendWalk(ids, edges, p, parents[i], x);
      assert (p + [x])[0] == p[0];
    }
    forall p | EndsAt(ids, edges, p, x) ensures |p| <= d + 1 {
      if |p| > 1 {
        ShortenWalk(ids, edges, p, x);
        var q := p[|p| - 2];
        assert q in parents;
        var i :| 0 <= i < |parents| && parents[i] == q;
      }
    }
  }

  /** Every edge goes strictly right. */
  lemma EdgesGoRight(ids: seq<Id>, edges: seq<Edge>, e: Edge, left: nat, right: nat)
    requires e in edges && e.src in ids && e.dst in ids
    requires Longest(ids, edges, e.src, left) && Longest(ids, edges, e.dst, right)
    ensures left < right
  {
    var p :| EndsAt(ids, edges, p, e.src) && |p| == left + 1 && IsRoot(ids, edges, p[0]);
    ExtendWalk(ids, edges, p, e.src, e.dst);
  }

  /** The tables that the recursive helper shares: finished layers and nodes on the call stack. */
  class Layering {
    const ids: seq<Id>
    const edges: seq<Edge>
    const incoming: map<Id, seq<Id>>
    var layer: map<Id, nat>
    var visiting: set<Id>

    ghost predicate Valid()
      reads this
    {
      && (forall x :: x in ids ==> x in incoming && ParentsOf(ids, edges, x, incoming[x]))
      && layer.Keys <= Elements(ids) && visiting <= Elements(ids) && layer.Keys !! visiting
      && (forall x :: x in layer ==> layer[x] < |ids|)
      && (!Cyclic(ids, edges) ==> forall x :: x in layer ==> Longest(ids, edges, x, layer[x]))
    }

    constructor (ids: seq<Id>, edges: seq<Edge>, incoming: map<Id, seq<Id>>)
      requires forall x :: x in ids ==> x in incoming && ParentsOf(ids, edges, x, incoming[x])
      ensures Valid() && layer == map[] && visiting == {}
      ensures this.ids == ids && this.edges == edges
    {
      this.ids, this.edges, this.incoming := ids, edges, incoming;
      layer, visiting := map[], {};
    }

    /**
     * The layer of a node. On every graph the recursion ends and the value stays below the node
     * count; without cycles it is the length of the longest path from a root.
     */
    method ComputeLayer(id: Id) returns (value: nat)
      requires Valid() && id in ids
      requires !Cyclic(ids, edges) ==> forall v :: v in visiting ==> Reaches(ids, edges, id, v)
      modifies this`layer, this`visiting
      ensures Valid() && visiting == old(visiting)
      ensures forall x :: x in old(layer) ==> x in layer && layer[x] == old(layer)[x]
      ensures value < |ids| && (id !in visiting ==> id in layer && layer[id] == value)
      ensures !Cyclic(ids, edges) ==> Longest(ids, edges, id, value)
      decreases Elements(ids) - visiting, 0
    {
      if id in layer { return layer[id]; }
      if id in visiting {
        SelfReachIsCycle(ids, edges, id);
        return 0;
      }
      ghost var visiting0 := visiting;
      visiting := visiting + {id};
      var longest := Deepest(id);
      value := if longest <= |ids| - 1 then longest else |ids| - 1;
      if !Cyclic(ids, edges) { CapIdle(ids, edges, id, longest); }
      visiting := visiting - {id};
      assert visiting == visiting0;
      layer := layer[id := value];
    }

    /** The maximum over the parents of one more than their layer, or zero for a root. */
    method Deepest(id: Id) returns (longest: nat)
      requires Valid() && id in ids && id in visiting
      requires !Cyclic(ids, edges) ==>
        forall v :: v in visiting ==> v == id || Reaches(ids, edges, id, v)
      modifies this`layer, this`visiting
      ensures Valid() && visiting == old(visiting)
      ensures forall x :: x in old(layer) ==> x in layer && layer[x] == old(layer)[x]
      ensures !Cyclic(ids, edges) ==> Longest(ids, edges, id, longest)
      decreases Elements(ids) - visiting, 1
    {
      hide Longest, Cyclic, Reaches, Highest, LongestEach;
      var parents := incoming[id];
      ghost var cols: seq<nat> := [];
      longest := 0;
      NoneHighest(ids, edges, parents);
      for i := 0 to |parents|
        invariant Valid() && visiting == old(visiting)
        invariant forall x :: x in old(layer) ==> x in layer && layer[x] == old(layer)[x]
        invariant |cols| == i && Highest(cols, longest)
        invariant !Cyclic(ids, edges) ==> LongestEach(ids, edges, parents[..i], cols)
      {
        assert parents[i] in parents;
        if !Cyclic(ids, edges) { AllReach(ids, edges, visiting, parents[i], id); }
        var l := ComputeLayer(parents[i]);
        OneHigher(cols, longest, l);
        if !Cyclic(ids, edges) { OneLongest(ids, edges, parents, i, cols, l); }
        cols := cols + [l];
        if l + 1 > longest { longest := l + 1; }
      }
      if !Cyclic(ids, edges) { LongestOf(ids, edges, id, parents, cols, longest); }
    }
  }

  /** One more than the highest of the layers, or zero if there is none. */
  ghost predicate Highest(cols: seq<nat>, longest: nat) {
    && (forall j :: 0 <= j < |cols| ==> cols[j] < longest)
    && (cols == [] ==> longest == 0)
    && (cols != [] ==> exists k :: 0 <= k < |cols| && longest == cols[k] + 1)
  }

  lemma OneHigher(cols: seq<nat>, longest: nat, l: nat)
    requires Highest(cols, longest)
    ensures Highest(cols + [l], if l + 1 > longest then l + 1 else longest)
  {
    var more := cols + [l];
    if l + 1 > longest {
      assert more[|cols|] == l;
    } else {
      var k :| 0 <= k < |cols| && longest == cols[k] + 1;
      assert more[k] == cols[k];
    }
  }

  ghost predicate LongestEach(ids: seq<Id>, edges: seq<Edge>, parents: seq<Id>, cols: seq<nat>) {
    |parents| == |cols| && forall j :: 0 <= j < |cols| ==> Longest(ids, edges, parents[j], cols[j])
  }

  lemma NoneHighest(ids: seq<Id>, edges: seq<Edge>, parents: seq<Id>)
    ensures Highest([], 0) && LongestEach(ids, edges, parents[..0], [])
  {
  }

  lemma OneLongest(ids: seq<Id>, edges: seq<Edge>, parents: seq<Id>, i: nat, cols: seq<nat>, l: nat)
    requires i < |parents| && LongestEach(ids, edges, parents[..i], cols) && Longest(ids, edges, parents[i], l)
    ensures LongestEach(ids, edges, parents[..i + 1], cols + [l])
  {
    hide Longest;
    assert parents[..i + 1] == parents[..i] + [parents[i]];
  }

  lemma LongestOf(ids: seq<Id>, edges: seq<Edge>, id: Id, parents: seq<Id>, cols: seq<nat>, longest: nat)
    requires ParentsOf(ids, edges, id, parents) && id in ids && |cols| == |parents|
    requires Highest(cols, longest) && LongestEach(ids, edges, parents[..|cols|], cols)
    ensures Longest(ids, edges, id, longest)
  {
    hide Longest;
    assert parents[..|cols|] == parents;
    LongestFromParents(ids, edges, id, parents, cols, longest);
  }

  /** What is on the call stack is reached from a parent as well. */
  lemma AllReach(ids: seq<Id>, edges: seq<Edge>, visiting: set<Id>, parent: Id, id: Id)
    requires parent in ids && id in ids && Edge(parent, id) in edges
    requires forall v :: v in visiting ==> v == id || Reaches(ids, edges, id, v)
    ensures forall v :: v in visiting ==> Reaches(ids, edges, parent, v)
  {
    hide Reaches;
    forall v | v in visiting ensures Reaches(ids, edges, parent, v) {
      ReachesBack(ids, edges, parent, id, v);
    }
  }

  lemma CapIdle(ids: seq<Id>, edges: seq<Edge>, x: Id, d: nat)
    requires !Cyclic(ids, edges) && Longest(ids, edges, x, d)
    ensures d <= |ids| - 1
  {
    var p :| EndsAt(ids, edges, p, x) && |p| == d + 1 && IsRoot(ids, edges, p[0]);
    AcyclicWalkIsShort(ids, edges, p);
  }

  method Incoming(ids: seq<Id>, edges: seq<Edge>) returns (incoming: map<Id, seq<Id>>)
    ensures forall x :: x in ids ==> x in incoming && ParentsOf(ids, edges, x, incoming[x])
  {
    incoming := map x | x in ids :: [];
    for i := 0 to |edges|
      invariant forall x :: x in ids ==> x in incoming && ParentsOf(ids, edges[..i], x, incoming[x])
    {
      var e := edges[i];
      assert edges[..i + 1] == edges[..i] + [e];
      if e.src in ids && e.dst in ids {
        incoming := incoming[e.dst := incoming[e.dst] + [e.src]];
      }
    }
    assert edges[..|edges|] == edges;
  }

  /** The nodes of one column, in input order. */
  ghost function Column(ids: seq<Id>, layer: map<Id, nat>, l: nat): seq<Id> {
    if ids == [] then []
    else
      var n := |ids| - 1;
      Column(ids[..n], layer, l) + if ids[n] in layer && layer[ids[n]] == l then [ids[n]] else []
  }

  lemma {:induction false} ColumnExact(ids: seq<Id>, layer: map<Id, nat>, l: nat)
    ensures forall x :: x in Column(ids, layer, l) <==> x in ids && x in layer && layer[x] == l
  {
    if ids != [] {
      var n := |ids| - 1;
      ColumnExact(ids[..n], layer, l);
      assert ids == ids[..n] + [ids[n]];
    }
  }

  /** The columns of the nodes grouped so far; what has no entry has no node yet. */
  ghost predicate Grouped(ids: seq<Id>, layer: map<Id, nat>, byLayer: map<nat, seq<Id>>) {
    && (forall l :: l in byLayer ==> byLayer[l] == Column(ids, layer, l))
    && (forall l: nat :: l !in byLayer ==> Column(ids, layer, l) == [])
    && forall x :: x in ids && x in layer ==> layer[x] in byLayer
  }

  ghost function Entry(byLayer: map<nat, seq<Id>>, l: nat): seq<Id> {
    if l in byLayer then byLayer[l] else []
  }

  lemma ColumnGrows(ids: seq<Id>, layer: map<Id, nat>, x: Id, l: nat)
    requires x in layer
    ensures Column(ids + [x], layer, l) == if layer[x] == l then Column(ids, layer, l) + [x] else Column(ids, layer, l)
  {
    assert (ids + [x])[..|ids|] == ids;
    assert Column(ids, layer, l) + [] == Column(ids, layer, l);
  }

  lemma GroupOne(ids: seq<Id>, layer: map<Id, nat>, byLayer: map<nat, seq<Id>>, x: Id)
    requires Grouped(ids, layer, byLayer) && x in layer
    ensures Grouped(ids + [x], layer, byLayer[layer[x] := Entry(byLayer, layer[x]) + [x]])
  {
    hide Column;
    var more := byLayer[layer[x] := Entry(byLayer, layer[x]) + [x]];
    forall l: nat
      ensures if l in more then more[l] == Column(ids + [x], layer, l) else Column(ids + [x], layer, l) == []
    {
      ColumnGrows(ids, layer, x, l);
    }
  }

  method GroupByLayer(ids: seq<Id>, layer: map<Id, nat>) returns (byLayer: map<nat, seq<Id>>)
    requires forall x :: x in ids ==> x in layer
    ensures forall l :: l in byLayer ==> byLayer[l] == Column(ids, layer, l)
    ensures forall x :: x in ids ==> layer[x] in byLayer
  {
    hide Grouped, Column;
    byLayer := map[];
    GroupNone(ids, layer);
    for i := 0 to |ids|
      invariant Grouped(ids[..i], layer, byLayer)
    {
      var l := layer[ids[i]];
      ghost var before := byLayer;
      GroupOne(ids[..i], layer, byLayer, ids[i]);
      if l !in byLayer { byLayer := byLayer[l := []]; }
      SameUpdate(before, byLayer, l, byLayer[l] + [ids[i]]);
      byLayer := byLayer[l := byLayer[l] + [ids[i]]];
      assert ids[..i + 1] == ids[..i] + [ids[i]];
    }
    GroupAll(ids, layer, byLayer);
  }

  lemma GroupNone(ids: seq<Id>, layer: map<Id, nat>)
    ensures Grouped(ids[..0], layer, map[])
  {
  }

  lemma SameUpdate(before: map<nat, seq<Id>>, mid: map<nat, seq<Id>>, l: nat, v: seq<Id>)
    requires mid == before || mid == before[l := []]
    ensures mid[l := v] == before[l := v]
  {
  }

  lemma GroupAll(ids: seq<Id>, layer: map<Id, nat>, byLayer: map<nat, seq<Id>>)
    requires Grouped(ids[..|ids|], layer, byLayer) && forall x :: x in ids ==> x in layer
    ensures forall l :: l in byLayer ==> byLayer[l] == Column(ids, layer, l)
    ensures forall x :: x in ids ==> layer[x] in byLayer
  {
    assert ids[..|ids|] == ids;
  }

  /** A node sits in its layer's column, at a row where that column lists it. */
  ghost predicate Placed(ids: seq<Id>, layer: map<Id, nat>, x: Id, pos: Position) {
    && x in layer
    && exists row :: 0 <= row < |Column(ids, layer, layer[x])| && Column(ids, layer, layer[x])[row] == x
         && pos == Position(layer[x] * 260, row * 130)
  }

  method PlaceColumn(ids: seq<Id>, layer: map<Id, nat>, l: nat, rowIds: seq<Id>, positions0: map<Id, Position>)
    returns (positions: map<Id, Position>)
    requires rowIds == Column(ids, layer, l)
    requires forall x :: x in positions0 ==> Placed(ids, layer, x, positions0[x])
    ensures forall x :: x in positions ==> Placed(ids, layer, x, positions[x])
    ensures forall x :: x in positions <==> x in positions0 || x in rowIds
  {
    positions := positions0;
    ColumnExact(ids, layer, l);
    for row := 0 to |rowIds|
      invariant forall x :: x in positions ==> Placed(ids, layer, x, positions[x])
      invariant forall x :: x in positions <==> x in positions0 || x in rowIds[..row]
    {
      assert rowIds[row] in rowIds && rowIds[..row + 1] == rowIds[..row] + [rowIds[row]];
      positions := positions[rowIds[row] := Position(l * LAYER_GAP, row * ROW_GAP)];
    }
    assert rowIds[..|rowIds|] == rowIds;
  }

  lemma PlacesDiffer(ids: seq<Id>, layer: map<Id, nat>, x: Id, y: Id, at: Position)
    requires Placed(ids, layer, x, at) && Placed(ids, layer, y, at)
    ensures x == y
  {
  }

  /**
   * The layout of any graph: every node gets a place of its own in the column of its layer.
   * Without cycles the layer is the length of its longest path from a root.
   */
  method LayeredLayout(ids: seq<Id>, edges: seq<Edge>)
    returns (positions: map<Id, Position>, layer: map<Id, nat>)
    ensures forall x :: x in positions <==> x in ids
    ensures forall x :: x in ids ==> x in layer && layer[x] < |ids|
    ensures forall x :: x in positions ==> Placed(ids, layer, x, positions[x])
    ensures forall x, y :: x in positions && y in positions && positions[x] == positions[y] ==> x == y
    ensures !Cyclic(ids, edges) ==> forall x :: x in ids ==> Longest(ids, edges, x, layer[x])
  {
    var incoming := Incoming(ids, edges);
    layer := Layers(ids, edges, incoming);
    var byLayer := GroupByLayer(ids, layer);
    positions := map[];
    var todo := byLayer.Keys;
    while todo != {}
      invariant todo <= byLayer.Keys
      invariant forall x :: x in positions ==> x in ids && Placed(ids, layer, x, positions[x])
      invariant forall x :: x in ids && layer[x] !in todo ==> x in positions
    {
      var l :| l in todo;
      ColumnExact(ids, layer, l);
      positions := PlaceColumn(ids, layer, l, byLayer[l], positions);
      todo := todo - {l};
    }
    forall x, y | x in positions && y in positions && positions[x] == positions[y] ensures x == y {
      PlacesDiffer(ids, layer, x, y, positions[x]);
    }
  }

  method Layers(ids: seq<Id>, edges: seq<Edge>, incoming: map<Id, seq<Id>>) returns (layer: map<Id, nat>)
    requires forall x :: x in ids ==> x in incoming && ParentsOf(ids, edges, x, incoming[x])
    ensures forall x :: x in ids ==> x in layer && layer[x] < |ids|
    ensures !Cyclic(ids, edges) ==> forall x :: x in ids ==> Longest(ids, edges, x, layer[x])
  {
    var memo := new Layering(ids, edges, incoming);
    for i := 0 to |ids|
      invariant memo.Valid() && memo.visiting == {}
      invariant forall j :: 0 <= j < i ==> ids[j] in memo.layer
    {
      var _ := memo.ComputeLayer(ids[i]);
    }
    layer := memo.layer;
  }

  /** Without cycles the picture reads left to right. */
  lemma EdgesDrawnRight(ids: seq<Id>, edges: seq<Edge>, layer: map<Id, nat>, positions: map<Id, Position>, e: Edge)
    requires e in edges && e.src in ids && e.dst in ids
    requires forall x :: x in ids ==>
      && x in layer && x in positions
      && Longest(ids, edges, x, layer[x]) && Placed(ids, layer, x, positions[x])
    ensures positions[e.src].x + LAYER_GAP <= positions[e.dst].x
  {
    EdgesGoRight(ids, edges, e, layer[e.src], layer[e.dst]);
  }

  /** Rows keep the input order and leave no gap: a node of row `r` has exactly `r` before it. */
  lemma {:induction false} RowsInOrder(ids: seq<Id>, layer: map<Id, nat>, l: nat, i: nat)
    requires i < |ids| && ids[i] in layer && layer[ids[i]] == l
    ensures |Column(ids[..i], layer, l)| < |Column(ids, layer, l)|
    ensures Column(ids, layer, l)[|Column(ids[..i], layer, l)|] == ids[i]
    ensures Column(ids[..i], layer, l) <= Column(ids, layer, l)
  {
    var n := |ids| - 1;
    if i < n {
      RowsInOrder(ids[..n], layer, l, i);
      assert ids[..n][..i] == ids[..i];
    }
  }

  /**
   * A cyclic graph has no longest paths, so the layering cannot promise columns there: of two
   * nodes in a loop at least one edge does not go right.
   */
  lemma CyclesCannotGoRight(ids: seq<Id>, edges: seq<Edge>, layer: map<Id, nat>)
    requires Cyclic(ids, edges) && forall x :: x in ids ==> x in layer
    ensures exists e :: e in edges && e.src in ids && e.dst in ids && layer[e.dst] <= layer[e.src]
  {
    var p :| IsCycle(ids, edges, p);
    if forall e :: e in edges && e.src in ids && e.dst in ids ==> layer[e.src] < layer[e.dst] {
      ClimbsAlong(ids, edges, layer, p);
      assert false;
    }
  }

  lemma {:induction false} ClimbsAlong(ids: seq<Id>, edges: seq<Edge>, layer: map<Id, nat>, p: seq<Id>)
    requires WalkIn(ids, edges, p) && |p| > 1 && forall x :: x in ids ==> x in layer
    requires forall e :: e in edges && e.src in ids && e.dst in ids ==> layer[e.src] < layer[e.dst]
    ensures p[0] in layer && p[|p| - 1] in layer && layer[p[0]] < layer[p[|p| - 1]]
    decreases |p|
  {
    var n := |p| - 1;
    assert p[0] in p && p[n] in p && p[n - 1] in p;
    assert Edge(p[n - 1], p[n]) in edges;
    if n > 1 { ClimbsAlong(ids, edges, layer, p[..n]); }
  }
}

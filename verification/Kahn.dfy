/**
 * Kahn's algorithm as written twice in the system: `TopoSort` in the workflow engine and
 * `ReportsCycle` in the workflow editor. Both work a queue over mutable in-degree counts.
 */
module Kahn {
  import opened Prelude
  import opened Graphs
  import opened Turns

  /** The adjacency list of `u`: targets of its edges, in edge order. */
  ghost function Targets(edges: seq<Edge>, u: Id): seq<Id> {
    if edges == [] then []
    else
      var last := edges[|edges| - 1];
      Targets(edges[..|edges| - 1], u) + if last.src == u then [last.dst] else []
  }

  ghost function Count(s: seq<Id>, v: Id): nat {
    if s == [] then 0 else (if s[0] == v then 1 else 0) + Count(s[1..], v)
  }

  /** How many edges into `v` still have an unprocessed source. */
  ghost function Pending(edges: seq<Edge>, v: Id, done: set<Id>): nat {
    if edges == [] then 0
    else
      var last := edges[|edges| - 1];
      Pending(edges[..|edges| - 1], v, done) + if last.dst == v && last.src !in done then 1 else 0
  }

  function Get<T>(m: map<Id, T>, k: Id, default: T): T {
    if k in m then m[k] else default
  }

  lemma CountAppend(s: seq<Id>, x: Id, v: Id)
    ensures Count(s + [x], v) == Count(s, v) + if x == v then 1 else 0
  {
    if s != [] {
      assert (s + [x])[1..] == s[1..] + [x];
    }
  }

  /** Processing `u` accounts for exactly its outgoing edges. */
  lemma {:induction false} PendingAfter(edges: seq<Edge>, v: Id, done: set<Id>, u: Id)
    requires u !in done
    ensures Pending(edges, v, done) == Pending(edges, v, done + {u}) + Count(Targets(edges, u), v)
  {
    if edges != [] {
      var front, last := edges[..|edges| - 1], edges[|edges| - 1];
      PendingAfter(front, v, done, u);
      CountAppend(Targets(front, u), last.dst, v);
      assert Targets(front, u) + [] == Targets(front, u);
    }
  }

  lemma {:induction false} PendingZero(edges: seq<Edge>, v: Id, done: set<Id>)
    ensures Pending(edges, v, done) == 0 <==> forall e :: e in edges && e.dst == v ==> e.src in done
  {
    if edges != [] {
      var front, last := edges[..|edges| - 1], edges[|edges| - 1];
      PendingZero(front, v, done);
      assert edges == front + [last];
    }
  }

  lemma HeadIsNew(done: seq<Id>, queue: seq<Id>)
    requires queue != [] && NoDup(done + queue)
    ensures queue[0] !in done
  {
    var all := done + queue;
    assert all[|done|] == queue[0];
    assert forall i :: 0 <= i < |done| ==> all[i] == done[i];
  }

  /** What the queue loop maintains between two pops. `done` is the order produced so far. */
  ghost predicate Frontier(ids: seq<Id>, edges: seq<Edge>, queue: seq<Id>, done: seq<Id>) {
    && NoDup(done + queue)
    && (forall x :: x in done + queue ==> IsNode(ids, edges, x))
    && (forall i :: 0 <= i < |done| ==> PredsIn(edges, done[i], done[..i]))
    && (forall x :: IsNode(ids, edges, x) ==>
          (x in done + queue <==> Pending(edges, x, Elements(done)) == 0))
  }

  lemma FrontierDone(ids: seq<Id>, edges: seq<Edge>, done: seq<Id>)
    requires Frontier(ids, edges, [], done)
    ensures KahnOrder(ids, edges, done)
  {
    assert done + [] == done;
    forall i | 0 <= i < |done| ensures IsNode(ids, edges, done[i]) {
      assert done[i] in done + [];
    }
    forall x | IsNode(ids, edges, x) && PredsIn(edges, x, done) ensures x in done {
      PendingZero(edges, x, Elements(done));
    }
  }

  /** The counts `inDegree` agree with `Pending` for every node once `rest` has been subtracted. */
  ghost predicate Counted(ids: seq<Id>, edges: seq<Edge>, inDegree: map<Id, int>,
                          done: set<Id>, rest: seq<Id>) {
    && (forall x :: IsNode(ids, edges, x) ==> x in inDegree)
    && (forall x :: IsNode(ids, edges, x) ==>
          inDegree[x] == Pending(edges, x, done) + Count(rest, x))
  }

  /** The tables built from the edge list before the queue starts. */
  ghost predicate Indexed(ids: seq<Id>, edges: seq<Edge>, inDegree: map<Id, int>,
                          adj: map<Id, seq<Id>>) {
    && (forall x :: x in inDegree <==> IsNode(ids, edges, x))
    && (forall x :: x in inDegree ==> inDegree[x] == Pending(edges, x, {}))
    && (forall u :: Get(adj, u, []) == Targets(edges, u))
  }

  method IndexEdges(ids: seq<Id>, edges: seq<Edge>)
    returns (inDegree: map<Id, int>, adj: map<Id, seq<Id>>)
    ensures Indexed(ids, edges, inDegree, adj)
  {
    inDegree := map s | s in ids :: 0;
    adj := map s | s in ids :: [];
    for i := 0 to |edges|
      invariant Indexed(ids, edges[..i], inDegree, adj)
    {
      var e := edges[i];
      assert edges[..i + 1] == edges[..i] + [e];
      IndexOne(ids, edges[..i], e, inDegree, adj);
      hide Indexed;
      adj := adj[e.src := Get(adj, e.src, []) + [e.dst]];
      inDegree := inDegree[e.dst := Get(inDegree, e.dst, 0) + 1];
    }
    assert edges[..|edges|] == edges;
  }

  lemma IndexOne(ids: seq<Id>, edges: seq<Edge>, e: Edge, inDegree: map<Id, int>, adj: map<Id, seq<Id>>)
    requires Indexed(ids, edges, inDegree, adj)
    ensures Indexed(ids, edges + [e], inDegree[e.dst := Get(inDegree, e.dst, 0) + 1],
                    adj[e.src := Get(adj, e.src, []) + [e.dst]])
  {
    var edges' := edges + [e];
    assert edges'[..|edges|] == edges && edges'[|edges|] == e;
    OneMoreNode(ids, edges, e);
    hide IsNode;
    if e.dst !in inDegree { NotYetTarget(ids, edges, e.dst); }
    assert forall x :: Pending(edges', x, {}) == Pending(edges, x, {}) + if e.dst == x then 1 else 0;
    forall u ensures Get(adj[e.src := Get(adj, e.src, []) + [e.dst]], u, []) == Targets(edges', u) {
      assert Targets(edges, u) + [] == Targets(edges, u);
    }
  }

  lemma OneMoreNode(ids: seq<Id>, edges: seq<Edge>, e: Edge)
    ensures forall x :: IsNode(ids, edges + [e], x) <==> IsNode(ids, edges, x) || x == e.dst
  {
    forall x ensures IsNode(ids, edges + [e], x) <==> IsNode(ids, edges, x) || x == e.dst {
      if x == e.dst { assert e in edges + [e]; }
      if IsNode(ids, edges, x) && x !in ids {
        var d :| d in edges && d.dst == x;
        assert d in edges + [e];
      }
    }
  }

  lemma NotYetTarget(ids: seq<Id>, edges: seq<Edge>, v: Id)
    requires !IsNode(ids, edges, v)
    ensures Pending(edges, v, {}) == 0
  {
    PendingZero(edges, v, {});
  }

  /** An unlisted edge target starts with at least one unprocessed edge. */
  lemma TargetStartsPending(ids: seq<Id>, edges: seq<Edge>, v: Id)
    requires IsNode(ids, edges, v) && v !in ids
    ensures Pending(edges, v, {}) > 0
  {
    var e :| e in edges && e.dst == v;
    PendingZero(edges, v, {});
  }

  /** What the inner loop maintains while edges to `rest` are still to be subtracted. */
  ghost predicate Relaxing(ids: seq<Id>, edges: seq<Edge>, inDegree: map<Id, int>, all: seq<Id>,
                           queue: seq<Id>, rest: seq<Id>) {
    && NoDup(all + queue)
    && (forall x :: x in all + queue ==> IsNode(ids, edges, x))
    && (forall x :: x in rest ==> IsNode(ids, edges, x))
    && Counted(ids, edges, inDegree, Elements(all), rest)
    && (forall x :: IsNode(ids, edges, x) ==> (x in all + queue <==> inDegree[x] == 0))
  }

  lemma RelaxStart(ids: seq<Id>, edges: seq<Edge>, node: Id, inDegree: map<Id, int>,
                   queue: seq<Id>, done: seq<Id>)
    requires Frontier(ids, edges, [node] + queue, done)
    requires Counted(ids, edges, inDegree, Elements(done), [])
    ensures Relaxing(ids, edges, inDegree, done + [node], queue, Targets(edges, node))
  {
    HeadIsNew(done, [node] + queue);
    assert done + ([node] + queue) == done + [node] + queue;
    assert Elements(done + [node]) == Elements(done) + {node};
    forall x | IsNode(ids, edges, x)
      ensures inDegree[x] == Pending(edges, x, Elements(done + [node])) + Count(Targets(edges, node), x)
    {
      PendingAfter(edges, x, Elements(done), node);
    }
    TargetsAreNodes(ids, edges, node);
  }

  lemma RelaxStep(ids: seq<Id>, edges: seq<Edge>, inDegree: map<Id, int>, all: seq<Id>,
                  queue: seq<Id>, nb: Id, rest: seq<Id>)
    requires Relaxing(ids, edges, inDegree, all, queue, [nb] + rest)
    ensures nb in inDegree
    ensures var d := inDegree[nb] - 1;
            Relaxing(ids, edges, inDegree[nb := d], all, if d == 0 then queue + [nb] else queue, rest)
  {
    var before := [nb] + rest;
    assert before[0] == nb && before[1..] == rest;
    assert nb in before && IsNode(ids, edges, nb);
    assert forall x :: x in rest ==> x in before;
    assert Count(before, nb) > 0;
    assert all + (queue + [nb]) == all + queue + [nb];
  }

  lemma RelaxEnd(ids: seq<Id>, edges: seq<Edge>, inDegree: map<Id, int>, node: Id,
                 queue0: seq<Id>, queue: seq<Id>, done: seq<Id>)
    requires Frontier(ids, edges, [node] + queue0, done)
    requires Relaxing(ids, edges, inDegree, done + [node], queue, [])
    ensures Frontier(ids, edges, queue, done + [node])
  {
    var all := done + [node];
    forall i | 0 <= i < |all| ensures PredsIn(edges, all[i], all[..i]) {
      if i < |done| {
        assert all[..i] == done[..i];
      } else {
        assert all[..i] == done;
        assert node in done + ([node] + queue0);
        PendingZero(edges, node, Elements(done));
      }
    }
  }

  lemma {:induction false} OutTargets(edges: seq<Edge>, u: Id)
    ensures |Out(edges, u)| == |Targets(edges, u)|
    ensures forall k :: 0 <= k < |Out(edges, u)| ==> edges[Out(edges, u)[k]].dst == Targets(edges, u)[k]
  {
    if edges != [] { OutTargets(edges[..|edges| - 1], u); }
  }

  lemma {:induction false} CountZero(s: seq<Id>, v: Id)
    requires Count(s, v) == 0
    ensures v !in s
  {
    if s != [] { CountZero(s[1..], v); }
  }

  /** A count reaches zero with the last edge into the node. */
  lemma NextTurn(ids: seq<Id>, edges: seq<Edge>, inDegree: map<Id, int>, done: seq<Id>, node: Id, queue: seq<Id>,
                 targets: seq<Id>, k: nat)
    requires targets == Targets(edges, node) && k < |targets| && IsNode(ids, edges, targets[k])
    requires Relaxing(ids, edges, inDegree, done + [node], queue, targets[k + 1..])
    requires targets[k] in inDegree && inDegree[targets[k]] == 0
    ensures k < |Out(edges, node)| && edges[Out(edges, node)[k]].dst == targets[k]
    ensures Last(edges, done + [node], Out(edges, node)[k], targets[k])
  {
    var nb, all, out := targets[k], done + [node], Out(edges, node);
    OutTargets(edges, node);
    PendingZero(edges, nb, Elements(all));
    CountZero(targets[k + 1..], nb);
    hide Relaxing, Targets, Out, Pending, Count;
    forall e | 0 <= e < |edges| && edges[e].dst == nb
      ensures edges[e].src in all[..|all| - 1] || (edges[e].src == all[|all| - 1] && e <= out[k])
    {
      assert edges[e] in edges && edges[e].src in Elements(all);
      assert all[..|all| - 1] == done;
      if edges[e].src == node { OutNotLater(edges, node, targets, k, e); }
    }
  }

  lemma OutNotLater(edges: seq<Edge>, node: Id, targets: seq<Id>, k: nat, e: nat)
    requires targets == Targets(edges, node) && k < |targets| && targets[k] !in targets[k + 1..]
    requires e < |edges| && edges[e] == Edge(node, targets[k])
    ensures k < |Out(edges, node)| && e <= Out(edges, node)[k]
  {
    OutTargets(edges, node);
    var t: nat :| t < |Out(edges, node)| && Out(edges, node)[t] == e;
    InRest(targets, k, t);
  }

  lemma InRest(s: seq<Id>, k: nat, t: nat)
    requires k < |s| && t < |s|
    ensures k < t ==> s[t] in s[k + 1..]
  {
    assert k < t ==> s[k + 1..][t - k - 1] == s[t];
  }

  /** The inner loop: subtract the edges of the node just processed, queueing what reaches zero. */
  method Relax(ids: seq<Id>, edges: seq<Edge>, node: Id, targets: seq<Id>,
               inDegree0: map<Id, int>, queue0: seq<Id>, ghost done: seq<Id>, ghost turns0: seq<Turn>)
    returns (inDegree: map<Id, int>, queue: seq<Id>, ghost turns: seq<Turn>)
    requires Frontier(ids, edges, [node] + queue0, done)
    requires Counted(ids, edges, inDegree0, Elements(done), [])
    requires targets == Targets(edges, node)
    requires InTurn(ids, edges, done, done + [node] + queue0, turns0)
    ensures Frontier(ids, edges, queue, done + [node])
    ensures Counted(ids, edges, inDegree, Elements(done + [node]), [])
    ensures InTurn(ids, edges, done + [node], done + [node] + queue, turns)
  {
    inDegree, queue, turns := inDegree0, queue0, turns0;
    ghost var all := done + [node];
    RelaxStart(ids, edges, node, inDegree, queue, done);
    OldTurnsEarlier(ids, edges, done, all + queue, turns, node);
    TurnsStay(ids, edges, done, all + queue, turns, node);
    assert targets[0..] == targets;
    hide Frontier, Counted, Relaxing, InTurn, Earlier, Targets;
    for k := 0 to |targets|
      invariant Relaxing(ids, edges, inDegree, all, queue, targets[k..])
      invariant InTurn(ids, edges, all, all + queue, turns) && Earlier(edges, all, turns, k)
    {
      var nb := targets[k];
      assert targets[k..] == [nb] + targets[k + 1..];
      RelaxStep(ids, edges, inDegree, all, queue, nb, targets[k + 1..]);
      inDegree := inDegree[nb := inDegree[nb] - 1];
      if inDegree[nb] == 0 {
        NextTurn(ids, edges, inDegree, done, node, queue + [nb], targets, k);
        TakeTurn(ids, edges, all, all + queue, turns, k, nb);
        turns := turns + [Turn(|all| - 1, Out(edges, node)[k])];
        assert (all + queue) + [nb] == all + (queue + [nb]);
        queue := queue + [nb];
      } else {
        SkipTurn(edges, all, turns, k);
      }
    }
    assert targets[|targets|..] == [];
    RelaxEnd(ids, edges, inDegree, node, queue0, queue, done);
  }

  lemma {:induction false} TargetsAreNodes(ids: seq<Id>, edges: seq<Edge>, u: Id)
    ensures forall x :: x in Targets(edges, u) ==> IsNode(ids, edges, x)
  {
    if edges != [] {
      var front, last := edges[..|edges| - 1], edges[|edges| - 1];
      TargetsAreNodes(ids, front, u);
      forall x | x in Targets(edges, u) ensures IsNode(ids, edges, x) {
        if x in Targets(front, u) && x !in ids {
          var e :| e in front && e.dst == x;
          assert e in edges;
        } else if x !in ids {
          assert last in edges && last.dst == x;
        }
      }
    }
  }

  /** The initial queue: declared steps without incoming edges, in declaration order. */
  method Roots(ids: seq<Id>, edges: seq<Edge>, inDegree: map<Id, int>, adj: map<Id, seq<Id>>)
    returns (queue: seq<Id>, ghost turns: seq<Turn>)
    requires NoDup(ids) && Indexed(ids, edges, inDegree, adj)
    ensures Frontier(ids, edges, queue, []) && InTurn(ids, edges, [], queue, turns)
  {
    queue, turns := [], [];
    hide Indexed, InTurn;
    NoTurns(ids, edges);
    for i := 0 to |ids|
      invariant NoDup(queue)
      invariant forall x :: x in queue <==> x in ids[..i] && x in inDegree && inDegree[x] == 0
      invariant InTurn(ids, edges, [], queue, turns) && forall k :: 0 <= k < |turns| ==> Before(turns[k], Turn(-1, i))
    {
      assert ids[..i + 1] == ids[..i] + [ids[i]];
      IsListed(ids, edges, inDegree, adj, i);
      if inDegree[ids[i]] == 0 {
        RootTurn(ids, edges, inDegree, adj, queue, turns, i);
        queue, turns := queue + [ids[i]], turns + [Turn(-1, i)];
      }
    }
    assert ids[..|ids|] == ids;
    RootsAreFrontier(ids, edges, inDegree, adj, queue);
  }

  lemma NoTurns(ids: seq<Id>, edges: seq<Edge>)
    ensures InTurn(ids, edges, [], [], [])
  {
  }

  lemma IsListed(ids: seq<Id>, edges: seq<Edge>, inDegree: map<Id, int>, adj: map<Id, seq<Id>>, i: nat)
    requires i < |ids| && Indexed(ids, edges, inDegree, adj)
    ensures ids[i] in inDegree
  {
    assert IsNode(ids, edges, ids[i]);
  }

  /** A declared step without incoming edges enters in its declared place. */
  lemma RootTurn(ids: seq<Id>, edges: seq<Edge>, inDegree: map<Id, int>, adj: map<Id, seq<Id>>, queue: seq<Id>,
                 turns: seq<Turn>, i: nat)
    requires Indexed(ids, edges, inDegree, adj) && InTurn(ids, edges, [], queue, turns)
    requires i < |ids| && ids[i] in inDegree && inDegree[ids[i]] == 0
    requires forall k :: 0 <= k < |turns| ==> Before(turns[k], Turn(-1, i))
    ensures InTurn(ids, edges, [], queue + [ids[i]], turns + [Turn(-1, i)])
  {
    PendingZero(edges, ids[i], {});
    assert Entered(ids, edges, [], ids[i], Turn(-1, i));
    hide Indexed, Entered;
  }

  lemma RootsAreFrontier(ids: seq<Id>, edges: seq<Edge>, inDegree: map<Id, int>, adj: map<Id, seq<Id>>, queue: seq<Id>)
    requires NoDup(queue) && Indexed(ids, edges, inDegree, adj)
    requires forall x :: x in queue <==> x in ids && x in inDegree && inDegree[x] == 0
    ensures Frontier(ids, edges, queue, [])
  {
    assert [] + queue == queue;
    assert Elements<Id>([]) == {};
    forall x | IsNode(ids, edges, x) ensures x in queue <==> Pending(edges, x, {}) == 0 {
      if x !in ids { TargetStartsPending(ids, edges, x); }
    }
  }

  /** Nodes not yet processed; shrinks with every pop. */
  ghost function Unprocessed(ids: seq<Id>, edges: seq<Edge>, done: seq<Id>): set<Id> {
    (set x | x in ids) + (set e | e in edges :: e.dst) - Elements(done)
  }

  lemma PopShrinks(ids: seq<Id>, edges: seq<Edge>, done: seq<Id>, node: Id)
    requires IsNode(ids, edges, node) && node !in done
    ensures Unprocessed(ids, edges, done + [node]) < Unprocessed(ids, edges, done)
  {
    assert node in Unprocessed(ids, edges, done);
    assert node !in Unprocessed(ids, edges, done + [node]);
  }

  /** The node at the front of the queue is new, and the rest of it keeps its place. */
  lemma Pop(ids: seq<Id>, edges: seq<Edge>, queue: seq<Id>, done: seq<Id>)
    requires queue != [] && Frontier(ids, edges, queue, done)
    ensures queue == [queue[0]] + queue[1..] && done + queue == done + [queue[0]] + queue[1..]
    ensures Unprocessed(ids, edges, done + [queue[0]]) < Unprocessed(ids, edges, done)
  {
    assert queue[0] == (done + queue)[|done|];
    HeadIsNew(done, queue);
    PopShrinks(ids, edges, done, queue[0]);
  }

  /** Before the first node is processed, the tables count what there is to count. */
  lemma NothingDone(ids: seq<Id>, edges: seq<Edge>, inDegree: map<Id, int>, adj: map<Id, seq<Id>>)
    requires Indexed(ids, edges, inDegree, adj)
    ensures Counted(ids, edges, inDegree, Elements([]), [])
    ensures forall u :: Get(adj, u, []) == Targets(edges, u)
  {
    assert Elements<Id>([]) == {};
  }

  /**
   * The engine's topological sort. For every edge list, including one with dangling edges, the
   * answer is decided by a Kahn order `l`: `l` itself when it is as long as the step list and
   * None otherwise. The order keeps the turns of the queue, so there is only one it can be.
   */
  method TopoSort(ids: seq<Id>, edges: seq<Edge>) returns (r: Option<seq<Id>>)
    requires NoDup(ids)
    ensures r.Some? ==> KahnOrder(ids, edges, r.value) && |r.value| == |ids| && Fifo(ids, edges, r.value)
    ensures r.None? ==> exists l :: KahnOrder(ids, edges, l) && |l| != |ids|
    ensures (r.Some? && IsTopological(ids, edges, r.value))
       <==> (NoCrossing(ids, edges) && !Cyclic(ids, edges))
    ensures NoCrossing(ids, edges) ==> (r.None? <==> Cyclic(ids, edges))
  {
    hide InTurn, Indexed, Counted, Frontier, Unprocessed;
    var inDegree, adj := IndexEdges(ids, edges);
    var queue, turns := Roots(ids, edges, inDegree, adj);
    var result := [];
    NothingDone(ids, edges, inDegree, adj);
    assert [] + queue == queue;
    while queue != []
      invariant Frontier(ids, edges, queue, result) && InTurn(ids, edges, result, result + queue, turns)
      invariant Counted(ids, edges, inDegree, Elements(result), [])
      decreases Unprocessed(ids, edges, result)
    {
      var node := queue[0];
      Pop(ids, edges, queue, result);
      inDegree, queue, turns := Relax(ids, edges, node, Get(adj, node, []), inDegree, queue[1..], result, turns);
      result := result + [node];
    }
    FrontierDone(ids, edges, result);
    assert result + [] == result;
    KahnExactness(ids, edges, result);
    if NoCrossing(ids, edges) { KahnDetectsCycles(ids, edges, result); }
    r := if |result| == |ids| then Some(result) else None;
  }

  /** The editor drops edges that touch an unknown node before it counts. */
  function KnownEdges(ids: seq<Id>, edges: seq<Edge>): seq<Edge> {
    if edges == [] then []
    else
      var e := edges[0];
      (if e.src in ids && e.dst in ids then [e] else []) + KnownEdges(ids, edges[1..])
  }

  lemma KnownEdgesMembers(ids: seq<Id>, edges: seq<Edge>)
    ensures forall e :: e in KnownEdges(ids, edges) <==> e in edges && e.src in ids && e.dst in ids
  {
  }

  /** Dropping dangling edges neither hides nor invents a cycle through the declared nodes. */
  lemma KnownEdgesKeepCycles(ids: seq<Id>, edges: seq<Edge>)
    ensures Cyclic(ids, edges) <==> Cyclic(ids, KnownEdges(ids, edges))
  {
    KnownEdgesMembers(ids, edges);
    var known := KnownEdges(ids, edges);
    if p :| IsCycle(ids, edges, p) {
      forall i | 0 <= i < |p| - 1 ensures Edge(p[i], p[i + 1]) in known {
        assert p[i] in p && p[i + 1] in p;
      }
      assert IsCycle(ids, known, p);
    }
    if p :| IsCycle(ids, known, p) {
      assert IsCycle(ids, edges, p);
    }
  }

  /**
   * The editor's cycle check, which counts processed nodes instead of collecting them. It reports
   * a cycle exactly when the nodes on the canvas contain one, whatever dangling edges there are.
   */
  method ReportsCycle(nodes: seq<Id>, edges: seq<Edge>) returns (cycle: bool)
    requires NoDup(nodes)
    ensures cycle <==> Cyclic(nodes, edges)
  {
    KnownEdgesKeepCycles(nodes, edges);
    if |nodes| == 0 {
      NoNodesNoCycle(edges);
      return false;
    }
    var known := KnownEdges(nodes, edges);
    KnownEdgesMembers(nodes, edges);
    hide InTurn, Indexed, Counted, Frontier, Unprocessed;
    var inDegree, adj := IndexEdges(nodes, known);
    NothingDone(nodes, known, inDegree, adj);
    var queue, turns := Roots(nodes, known, inDegree, adj);
    var processed := 0;
    ghost var done: seq<Id> := [];
    assert [] + queue == queue;
    while |queue| > 0
      invariant Frontier(nodes, known, queue, done) && processed == |done|
      invariant InTurn(nodes, known, done, done + queue, turns)
      invariant Counted(nodes, known, inDegree, Elements(done), [])
      decreases Unprocessed(nodes, known, done)
    {
      var id := queue[0];
      Pop(nodes, known, queue, done);
      inDegree, queue, turns := Relax(nodes, known, id, Get(adj, id, []), inDegree, queue[1..], done, turns);
      processed := processed + 1;
      done := done + [id];
    }
    FrontierDone(nodes, known, done);
    KahnDetectsCycles(nodes, known, done);
    cycle := processed < |nodes|;
  }

  lemma NoNodesNoCycle(edges: seq<Edge>)
    ensures !Cyclic([], edges)
  {
    forall p ensures !IsCycle([], edges, p) {
      if |p| > 1 { assert p[0] in p && p[0] !in []; }
    }
  }

  lemma NoEdgesNoCycle(ids: seq<Id>)
    ensures !Cyclic(ids, [])
  {
    forall p ensures !IsCycle(ids, [], p) {
      if |p| > 1 { assert Edge(p[0], p[1]) !in []; }
    }
  }

  /**
   * Engine and editor compared on any saved graph: the engine obtains a usable order exactly
   * when the editor reports no cycle and no edge dangles across the step list.
   */
  method EngineAgreesWithEditor(ids: seq<Id>, edges: seq<Edge>)
    returns (order: Option<seq<Id>>, cycle: bool)
    requires NoDup(ids)
    ensures NoCrossing(ids, edges) ==> (order.None? <==> cycle)
    ensures (order.Some? && IsTopological(ids, edges, order.value))
       <==> (!cycle && NoCrossing(ids, edges))
  {
    order := TopoSort(ids, edges);
    cycle := ReportsCycle(ids, edges);
  }

  /**
   * A dangling pair defeats the engine's length test: one unknown source blocks step "b" and one
   * unknown target fills the gap, so a list that is not a permutation of the steps is accepted.
   */
  lemma DanglingEdgesFoolTheLengthTest()
    ensures var ids, edges := ["a", "b"], [Edge("x", "b"), Edge("a", "y")];
            KahnOrder(ids, edges, ["a", "y"]) && |["a", "y"]| == |ids|
            && !Permutation(["a", "y"], ids) && !Cyclic(ids, edges)
  {
    var ids, edges, l := ["a", "b"], [Edge("x", "b"), Edge("a", "y")], ["a", "y"];
    assert edges[1] in edges;
    assert edges[0] in edges;
    assert l[..1] == ["a"] && l[..0] == [];
    assert forall e :: e in edges ==> e == edges[0] || e == edges[1];
    assert IsNode(ids, edges, "y");
    assert "b" in ids && "b" !in l;
    assert KnownEdges(ids, edges) == [];
    KnownEdgesKeepCycles(ids, edges);
    NoEdgesNoCycle(ids);
  }
}

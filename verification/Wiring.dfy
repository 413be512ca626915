/**
 * The editor's input wiring: a breadth-first search for the nearest upstream provider, the
 * reference strings it writes, and why the engine can always read them back.
 */
module Wiring {
  import opened Prelude
  import opened Graphs
  import opened Refs
  import opened Workflow
  import EngineInputs
  import Coordinator
  import Kahn

  datatype Meta = Meta(inputs: seq<string>, outputs: seq<string>, runParamInputs: seq<string>)

  type Metas = map<string, Meta>

  datatype Node = Node(id: Id, typeKey: string, config: Fields)

  datatype ResolvedInput = ResolvedInput(key: string, ref: string)

  /** The node behind an id; a later node replaces an earlier one. */
  ghost function ById(nodes: seq<Node>): map<Id, Node> {
    if nodes == [] then map[]
    else ById(nodes[..|nodes| - 1])[nodes[|nodes| - 1].id := nodes[|nodes| - 1]]
  }

  ghost predicate Provides(metas: Metas, byId: map<Id, Node>, x: Id, key: string) {
    x in byId && byId[x].typeKey in metas && key in metas[byId[x].typeKey].outputs
  }

  // ---- Distances ----

  /** Some walk of exactly `d` edges leads from `a` to `node`. */
  ghost predicate At(edges: seq<Edge>, a: Id, node: Id, d: nat) {
    exists p :: |p| == d + 1 && IsWalk(edges, p) && p[0] == a && p[d] == node
  }

  lemma AtZero(edges: seq<Edge>, node: Id)
    ensures At(edges, node, node, 0)
    ensures forall x :: At(edges, x, node, 0) ==> x == node
  {
    assert IsWalk(edges, [node]);
  }

  lemma AtPrepend(edges: seq<Edge>, x: Id, y: Id, node: Id, d: nat)
    requires Edge(x, y) in edges && At(edges, y, node, d)
    ensures At(edges, x, node, d + 1)
  {
    var p :| |p| == d + 1 && IsWalk(edges, p) && p[0] == y && p[d] == node;
    var w := [x] + p;
    forall i | 0 <= i < |w| - 1 ensures Edge(w[i], w[i + 1]) in edges {
      if i > 0 { assert w[i] == p[i - 1] && w[i + 1] == p[i]; }
    }
    assert |w| == d + 2 && w[0] == x && w[d + 1] == node;
  }

  lemma AtSplit(edges: seq<Edge>, x: Id, node: Id, d: nat) returns (y: Id)
    requires At(edges, x, node, d + 1)
    ensures Edge(x, y) in edges && At(edges, y, node, d)
  {
    var p :| |p| == d + 2 && IsWalk(edges, p) && p[0] == x && p[d + 1] == node;
    assert Edge(p[0], p[1]) in edges;
    y := p[1];
    var w := p[1..];
    forall i | 0 <= i < |w| - 1 ensures Edge(w[i], w[i + 1]) in edges {
      assert w[i] == p[i + 1] && w[i + 1] == p[i + 2];
      assert Edge(p[i + 1], p[i + 1 + 1]) in edges;
    }
  }

  lemma AtIsAncestor(edges: seq<Edge>, a: Id, node: Id, d: nat)
    requires At(edges, a, node, d) && a != node
    ensures Ancestor(edges, a, node)
  {
  }

  // ---- Breadth-first search ----

  /** Everything nearer than `d` is seen, and the frontier holds what is new at distance `d`. */
  ghost predicate Explored(edges: seq<Edge>, node: Id, seen: set<Id>, frontier: seq<Id>, d: nat) {
    && node in seen
    && (forall x :: x in seen ==> exists k: nat :: k < d && At(edges, x, node, k))
    && (forall x, k: nat :: k < d && At(edges, x, node, k) ==> x in seen)
    && (forall x :: x in frontier ==> At(edges, x, node, d))
    && (forall x :: At(edges, x, node, d) ==> x in frontier || x in seen)
  }

  /** Half way through a level: the first `i` frontier nodes are done. */
  ghost predicate Sweeping(edges: seq<Edge>, node: Id, seen0: set<Id>, seen: set<Id>, frontier: seq<Id>,
                           i: nat, next: seq<Id>, d: nat)
    requires i <= |frontier|
  {
    && seen == seen0 + Elements(frontier[..i])
    && (forall x :: x in next ==> At(edges, x, node, d + 1))
    && (forall y, q :: y in frontier[..i] && y !in seen0 && Edge(q, y) in edges ==> q in next)
    && (next == [] || seen0 < seen)
  }

  lemma SweepOne(edges: seq<Edge>, node: Id, seen0: set<Id>, seen: set<Id>, frontier: seq<Id>, i: nat,
                 next: seq<Id>, d: nat, preds: seq<Id>)
    requires i < |frontier| && Sweeping(edges, node, seen0, seen, frontier, i, next, d)
    requires forall x :: x in frontier ==> At(edges, x, node, d)
    requires forall q :: q in preds <==> Edge(q, frontier[i]) in edges
    ensures frontier[i] in seen ==> Sweeping(edges, node, seen0, seen, frontier, i + 1, next, d)
    ensures frontier[i] !in seen ==>
      Sweeping(edges, node, seen0, seen + {frontier[i]}, frontier, i + 1, next + preds, d)
  {
    var y := frontier[i];
    assert frontier[..i + 1] == frontier[..i] + [y];
    assert Elements(frontier[..i + 1]) == Elements(frontier[..i]) + {y};
    assert y in frontier;
    forall q | q in preds ensures At(edges, q, node, d + 1) {
      AtPrepend(edges, q, y, node, d);
    }
    hide At;
  }

  lemma LevelDone(edges: seq<Edge>, node: Id, seen0: set<Id>, seen: set<Id>, frontier: seq<Id>, next: seq<Id>, d: nat)
    requires Explored(edges, node, seen0, frontier, d)
    requires Sweeping(edges, node, seen0, seen, frontier, |frontier|, next, d)
    ensures Explored(edges, node, seen, next, d + 1)
  {
    assert frontier[..|frontier|] == frontier;
    hide At;
    forall x | At(edges, x, node, d + 1) ensures x in next || x in seen {
      var y := AtSplit(edges, x, node, d);
      if y in seen0 {
        var k: nat :| k < d && At(edges, y, node, k);
        AtPrepend(edges, x, y, node, k);
      }
    }
  }

  /** When a level brings nothing new, everything upstream has been seen. */
  lemma {:induction false} NothingBeyond(edges: seq<Edge>, node: Id, seen: set<Id>, d: nat, x: Id, k: nat)
    requires Explored(edges, node, seen, [], d) && At(edges, x, node, k)
    ensures x in seen
    decreases k
  {
    hide At;
    if k > d {
      var y := AtSplit(edges, x, node, k - 1);
      NothingBeyond(edges, node, seen, d, y, k - 1);
      var j: nat :| j < d && At(edges, y, node, j);
      AtPrepend(edges, x, y, node, j);
    }
  }

  /** The search's answer: a provider that no other is nearer than, or none when there is none. */
  ghost predicate Nearest(metas: Metas, byId: map<Id, Node>, edges: seq<Edge>, node: Id, key: string, r: Option<Id>) {
    match r
    case Some(p) =>
      && Provides(metas, byId, p, key) && p != node
      && exists d: nat :: At(edges, p, node, d)
           && forall q, k: nat :: k < d && q != node && At(edges, q, node, k) ==> !Provides(metas, byId, q, key)
    case None =>
      forall q, k: nat :: q != node && At(edges, q, node, k) ==> !Provides(metas, byId, q, key)
  }

  method IndexPreds(edges: seq<Edge>) returns (preds: map<Id, seq<Id>>)
    ensures Coordinator.IsPredMap(edges, preds)
  {
    preds := map[];
    for i := 0 to |edges|
      invariant Coordinator.IsPredMap(edges[..i], preds)
    {
      var e := edges[i];
      assert edges[..i + 1] == edges[..i] + [e];
      preds := preds[e.dst := if e.dst in preds then preds[e.dst] + [e.src] else [e.src]];
    }
    assert edges[..|edges|] == edges;
  }

  /** Nothing seen so far, the start aside, provides the key. */
  ghost predicate NoneYet(metas: Metas, byId: map<Id, Node>, seen: set<Id>, node: Id, key: string) {
    forall x :: x in seen && x != node ==> !Provides(metas, byId, x, key)
  }

  ghost predicate AreSources(edges: seq<Edge>, ids: seq<Id>) {
    forall x :: x in ids ==> exists e :: e in edges && e.src == x
  }

  /** One level of the search: stop at the first provider, else collect the next frontier. */
  method SweepLevel(metas: Metas, byId: map<Id, Node>, edges: seq<Edge>, preds: map<Id, seq<Id>>, node: Id,
                    key: string, seen0: set<Id>, frontier: seq<Id>, ghost d: nat)
    returns (found: Option<Id>, seen: set<Id>, next: seq<Id>)
    requires d >= 1 && Coordinator.IsPredMap(edges, preds) && Explored(edges, node, seen0, frontier, d)
    requires NoneYet(metas, byId, seen0, node, key)
    ensures found.Some? ==> Nearest(metas, byId, edges, node, key, found)
    ensures found.None? ==>
      && Sweeping(edges, node, seen0, seen, frontier, |frontier|, next, d)
      && NoneYet(metas, byId, seen, node, key) && AreSources(edges, next)
  {
    hide At, Coordinator.IsPredMap, Nearest, AreSources, Sweeping;
    seen, next := seen0, [];
    SweepStart(edges, node, seen0, frontier, d);
    for i := 0 to |frontier|
      invariant Sweeping(edges, node, seen0, seen, frontier, i, next, d) && seen0 <= seen
      invariant NoneYet(metas, byId, seen, node, key) && AreSources(edges, next)
    {
      var pid := frontier[i];
      assert pid in frontier && At(edges, pid, node, d);
      PredsOf(edges, preds, pid);
      SweepOne(edges, node, seen0, seen, frontier, i, next, d, Kahn.Get(preds, pid, []));
      if pid !in seen {
        if pid in byId && byId[pid].typeKey in metas && key in metas[byId[pid].typeKey].outputs {
          FoundNearest(metas, byId, edges, node, key, seen0, frontier, d, pid);
          return Some(pid), seen, next;
        }
        SourcesJoin(edges, next, Kahn.Get(preds, pid, []));
        seen, next := seen + {pid}, next + Kahn.Get(preds, pid, []);
      }
    }
    found := None;
  }

  lemma SweepStart(edges: seq<Edge>, node: Id, seen: set<Id>, frontier: seq<Id>, d: nat)
    ensures Sweeping(edges, node, seen, seen, frontier, 0, [], d) && AreSources(edges, [])
  {
    assert Elements(frontier[..0]) == {};
  }

  lemma SourcesJoin(edges: seq<Edge>, a: seq<Id>, b: seq<Id>)
    requires AreSources(edges, a) && AreSources(edges, b)
    ensures AreSources(edges, a + b)
  {
  }

  lemma FoundNearest(metas: Metas, byId: map<Id, Node>, edges: seq<Edge>, node: Id, key: string, seen: set<Id>,
                     frontier: seq<Id>, d: nat, p: Id)
    requires Explored(edges, node, seen, frontier, d) && NoneYet(metas, byId, seen, node, key)
    requires p in frontier && p != node && Provides(metas, byId, p, key)
    ensures Nearest(metas, byId, edges, node, key, Some(p))
  {
    hide At;
  }

  /** Nearest upstream node whose outputs include the key. */
  method FindProvider(metas: Metas, byId: map<Id, Node>, edges: seq<Edge>, node: Id, key: string)
    returns (r: Option<Id>)
    ensures Nearest(metas, byId, edges, node, key, r)
  {
    var preds := IndexPreds(edges);
    var seen, frontier := {node}, Kahn.Get(preds, node, []);
    ghost var d: nat, sources := 1, set e | e in edges :: e.src;
    FirstLevel(edges, node, frontier);
    hide At, Coordinator.IsPredMap, Nearest, Explored, NoneYet, AreSources, Sweeping;
    while frontier != []
      invariant d >= 1 && Explored(edges, node, seen, frontier, d)
      invariant NoneYet(metas, byId, seen, node, key) && AreSources(edges, frontier)
      decreases sources - seen, |frontier|
    {
      var found, seen', next := SweepLevel(metas, byId, edges, preds, node, key, seen, frontier, d);
      if found.Some? { return found; }
      LevelDone(edges, node, seen, seen', frontier, next, d);
      LevelShrinks(edges, node, seen, seen', frontier, next, d, sources);
      seen, frontier, d := seen', next, d + 1;
    }
    NoneAnywhere(metas, byId, edges, node, key, seen, d);
    r := None;
  }

  /** A level sees something new, or leaves nothing to go on from. */
  lemma LevelShrinks(edges: seq<Edge>, node: Id, seen: set<Id>, seen': set<Id>, frontier: seq<Id>, next: seq<Id>,
                     d: nat, sources: set<Id>)
    requires Sweeping(edges, node, seen, seen', frontier, |frontier|, next, d) && frontier != []
    requires AreSources(edges, frontier) && sources == set e | e in edges :: e.src
    ensures sources - seen' < sources - seen || (sources - seen' == sources - seen && |next| < |frontier|)
  {
    assert frontier[..|frontier|] == frontier;
    if x :| x in Elements(frontier) && x !in seen {
      assert x in sources - seen && x !in sources - seen';
    } else {
      assert seen' == seen;
    }
  }

  lemma NoneAnywhere(metas: Metas, byId: map<Id, Node>, edges: seq<Edge>, node: Id, key: string, seen: set<Id>, d: nat)
    requires Explored(edges, node, seen, [], d) && NoneYet(metas, byId, seen, node, key)
    ensures Nearest(metas, byId, edges, node, key, None)
  {
    hide At;
    forall q, k: nat | q != node && At(edges, q, node, k) ensures !Provides(metas, byId, q, key) {
      NothingBeyond(edges, node, seen, d, q, k);
    }
  }

  lemma PredsOf(edges: seq<Edge>, preds: map<Id, seq<Id>>, x: Id)
    requires Coordinator.IsPredMap(edges, preds)
    ensures forall q :: q in Kahn.Get(preds, x, []) <==> Edge(q, x) in edges
    ensures AreSources(edges, Kahn.Get(preds, x, []))
  {
    forall q | q in Kahn.Get(preds, x, []) ensures exists e :: e in edges && e.src == q {
      assert Edge(q, x).src == q;
    }
  }

  lemma FirstLevel(edges: seq<Edge>, node: Id, frontier: seq<Id>)
    requires forall q :: q in frontier <==> Edge(q, node) in edges
    ensures Explored(edges, node, {node}, frontier, 1)
    ensures AreSources(edges, frontier)
  {
    AtZero(edges, node);
    hide At;
    forall x | x in frontier ensures At(edges, x, node, 1) {
      AtPrepend(edges, x, node, node, 0);
    }
    forall x | At(edges, x, node, 1) ensures x in frontier {
      var y := AtSplit(edges, x, node, 0);
    }
    forall x | x in frontier ensures exists e :: e in edges && e.src == x {
      assert Edge(x, node).src == x;
    }
  }

  // ---- Wiring a step ----

  ghost function StepText(id: Id, key: string): string {
    STEPS + id + OUTPUTS + key
  }

  /** What an input port may be wired to. */
  ghost predicate WiredAs(metas: Metas, nodes: seq<Node>, edges: seq<Edge>, node: Id, meta: Meta,
                          key: string, ref: string)
  {
    || (exists p :: Nearest(metas, ById(nodes), edges, node, key, Some(p)) && ref == StepText(p, key))
    || (&& Nearest(metas, ById(nodes), edges, node, key, None)
        && ref == if key in meta.runParamInputs then PARAMS + key else "")
  }

  method IndexNodes(nodes: seq<Node>) returns (byId: map<Id, Node>)
    ensures byId == ById(nodes)
  {
    byId := map[];
    for i := 0 to |nodes|
      invariant byId == ById(nodes[..i])
    {
      byId := byId[nodes[i].id := nodes[i]];
      assert nodes[..i + 1][..i] == nodes[..i];
    }
    assert nodes[..|nodes|] == nodes;
  }

  /** Each port of the step's type, in order, with what it is wired to. */
  ghost predicate Resolved(metas: Metas, nodes: seq<Node>, edges: seq<Edge>, node: Id, typeKey: string,
                           resolved: seq<ResolvedInput>)
  {
    && (typeKey !in metas ==> resolved == [])
    && (typeKey in metas ==>
          && |resolved| == |metas[typeKey].inputs|
          && forall i :: 0 <= i < |resolved| ==>
               && resolved[i].key == metas[typeKey].inputs[i]
               && WiredAs(metas, nodes, edges, node, metas[typeKey], resolved[i].key, resolved[i].ref))
  }

  /** The input ports of a step, in order, each with its reference. */
  method ResolveInputs(metas: Metas, nodes: seq<Node>, edges: seq<Edge>, node: Id, typeKey: string)
    returns (resolved: seq<ResolvedInput>)
    ensures Resolved(metas, nodes, edges, node, typeKey, resolved)
  {
    resolved := [];
    if typeKey !in metas { return; }
    var meta := metas[typeKey];
    var byId := IndexNodes(nodes);
    hide Nearest, ById, WiredAs;
    for i := 0 to |meta.inputs|
      invariant |resolved| == i
      invariant forall j :: 0 <= j < i ==>
        && resolved[j].key == meta.inputs[j]
        && WiredAs(metas, nodes, edges, node, meta, resolved[j].key, resolved[j].ref)
    {
      var key := meta.inputs[i];
      var ref := WirePort(metas, nodes, byId, edges, node, meta, key);
      resolved := resolved + [ResolvedInput(key, ref)];
    }
  }

  /** The reference a port gets: the provider's output, else a run parameter, else nothing. */
  method WirePort(metas: Metas, ghost nodes: seq<Node>, byId: map<Id, Node>, edges: seq<Edge>, node: Id, meta: Meta,
                  key: string)
    returns (ref: string)
    requires byId == ById(nodes)
    ensures WiredAs(metas, nodes, edges, node, meta, key, ref)
  {
    hide Nearest, ById, WiredAs;
    var provider := FindProvider(metas, byId, edges, node, key);
    ref := "";
    if provider.Some? { ref := STEPS + provider.value + OUTPUTS + key; }
    else if key in meta.runParamInputs { ref := PARAMS + key; }
    PortWired(metas, nodes, edges, node, meta, key, provider);
  }

  lemma PortWired(metas: Metas, nodes: seq<Node>, edges: seq<Edge>, node: Id, meta: Meta, key: string, r: Option<Id>)
    requires Nearest(metas, ById(nodes), edges, node, key, r)
    ensures WiredAs(metas, nodes, edges, node, meta, key,
      if r.Some? then StepText(r.value, key) else if key in meta.runParamInputs then PARAMS + key else "")
  {
    hide Nearest, ById;
  }

  /** The inputs object of a step: exactly the ports that could be wired. */
  ghost predicate Wired(metas: Metas, nodes: seq<Node>, edges: seq<Edge>, node: Id, typeKey: string, inputs: Fields) {
    && (typeKey !in metas ==> inputs == map[])
    && (typeKey in metas ==>
          && (forall key :: key in inputs ==>
                && key in metas[typeKey].inputs && inputs[key].Str? && inputs[key].s != ""
                && WiredAs(metas, nodes, edges, node, metas[typeKey], key, inputs[key].s))
          && (forall key :: key in metas[typeKey].inputs && key !in inputs ==>
                && Nearest(metas, ById(nodes), edges, node, key, None)
                && key !in metas[typeKey].runParamInputs))
  }

  /** The ports before `i` that have a reference are saved with it, and no others. */
  ghost predicate Saved(resolved: seq<ResolvedInput>, i: nat, inputs: Fields)
    requires i <= |resolved|
  {
    && (forall key :: key in inputs ==> exists j :: 0 <= j < i && SavesPort(resolved[j], key, inputs[key]))
    && forall j :: 0 <= j < i && resolved[j].key !in inputs ==> resolved[j].ref == ""
  }

  ghost predicate SavesPort(r: ResolvedInput, key: string, v: Value) {
    r.key == key && r.ref != "" && v == Str(r.ref)
  }

  method BuildInputs(metas: Metas, nodes: seq<Node>, edges: seq<Edge>, node: Id, typeKey: string)
    returns (inputs: Fields)
    ensures Wired(metas, nodes, edges, node, typeKey, inputs)
  {
    var resolved := ResolveInputs(metas, nodes, edges, node, typeKey);
    inputs := map[];
    for i := 0 to |resolved|
      invariant Saved(resolved, i, inputs)
    {
      SaveOne(resolved, i, inputs);
      if resolved[i].ref != "" {
        inputs := inputs[resolved[i].key := Str(resolved[i].ref)];
      }
    }
    SavedIsWired(metas, nodes, edges, node, typeKey, resolved, inputs);
  }

  lemma SaveOne(resolved: seq<ResolvedInput>, i: nat, inputs: Fields)
    requires i < |resolved| && Saved(resolved, i, inputs)
    ensures resolved[i].ref == "" ==> Saved(resolved, i + 1, inputs)
    ensures resolved[i].ref != "" ==> Saved(resolved, i + 1, inputs[resolved[i].key := Str(resolved[i].ref)])
  {
    assert resolved[i].ref != "" ==> SavesPort(resolved[i], resolved[i].key, Str(resolved[i].ref));
  }

  lemma SavedIsWired(metas: Metas, nodes: seq<Node>, edges: seq<Edge>, node: Id, typeKey: string,
                     resolved: seq<ResolvedInput>, inputs: Fields)
    requires Resolved(metas, nodes, edges, node, typeKey, resolved) && Saved(resolved, |resolved|, inputs)
    ensures Wired(metas, nodes, edges, node, typeKey, inputs)
  {
    hide Nearest, ById, WiredAs;
    if typeKey in metas {
      var meta := metas[typeKey];
      forall key | key in meta.inputs && key !in inputs
        ensures Nearest(metas, ById(nodes), edges, node, key, None) && key !in meta.runParamInputs
      {
        var j :| 0 <= j < |meta.inputs| && meta.inputs[j] == key;
        assert resolved[j].key == key && resolved[j].ref == "";
        UnwiredPort(metas, nodes, edges, node, meta, key);
      }
    }
  }

  /** No reference is written only where there is neither a provider nor a run parameter. */
  lemma UnwiredPort(metas: Metas, nodes: seq<Node>, edges: seq<Edge>, node: Id, meta: Meta, key: string)
    requires WiredAs(metas, nodes, edges, node, meta, key, "")
    ensures Nearest(metas, ById(nodes), edges, node, key, None) && key !in meta.runParamInputs
  {
    hide Nearest, ById;
    assert forall p :: StepText(p, key)[0] == STEPS[0];
    assert (PARAMS + key)[0] == PARAMS[0];
  }

  /** A definition saved by the editor: every step carries the inputs its edges give it. */
  ghost predicate SavedBy(metas: Metas, nodes: seq<Node>, def: Definition) {
    && |def.steps| == |nodes|
    && forall i :: 0 <= i < |nodes| ==> StepFrom(metas, nodes, def, nodes[i], def.steps[i])
  }

  ghost predicate StepFrom(metas: Metas, nodes: seq<Node>, def: Definition, n: Node, d: StepDef) {
    && d.id == n.id && d.stype == n.typeKey && d.config == n.config
    && Wired(metas, nodes, def.edges, n.id, n.typeKey, d.inputs)
  }

  method NodesToDef(metas: Metas, nodes: seq<Node>, edges: seq<Edge>) returns (def: Definition)
    ensures def.edges == edges && SavedBy(metas, nodes, def)
  {
    hide Wired;
    def := Definition([], edges);
    for i := 0 to |nodes|
      invariant def.edges == edges && |def.steps| == i
      invariant forall j :: 0 <= j < i ==> StepFrom(metas, nodes, def, nodes[j], def.steps[j])
    {
      var n := nodes[i];
      var inputs := BuildInputs(metas, nodes, edges, n.id, n.typeKey);
      def := def.(steps := def.steps + [StepDef(n.id, n.typeKey, n.config, inputs)]);
    }
  }

  // ---- Run parameters ----

  /** The characters a dot does not match in the editor's language. */
  predicate LineTerminator(c: char) {
    c == '\n' || c == '\r' || c == '\U{2028}' || c == '\U{2029}'
  }

  predicate OneLine(s: string) {
    forall i :: 0 <= i < |s| ==> !LineTerminator(s[i])
  }

  /** The editor's pattern for a parameter reference, over the whole string. */
  function EditorParam(text: string): Option<string> {
    if PARAMS <= text && |text| > |PARAMS| && OneLine(text[|PARAMS|..]) then Some(text[|PARAMS|..]) else None
  }

  /**
   * The editor and the engine read the same parameter name out of a string exactly if the engine
   * reads none, or the part after the prefix holds none of the editor language's line terminators.
   */
  lemma EditorAgreesWithEngineIff(text: string)
    ensures EditorParam(text) == MatchParam(text)
       <==> MatchParam(text).None? || forall c :: c in text[|PARAMS|..] ==> c !in "\n\r\U{2028}\U{2029}"
  {
    if MatchParam(text).Some? { OneLineIff(text); }
    if EditorParam(text).Some? { EditorParamIsRef(text); }
    var m := MatchParam(text);
    if m.Some? { FinalNewlineIsNotOneLine(m.value); }
  }

  lemma OneLineIff(text: string)
    requires |text| >= |PARAMS|
    ensures OneLine(text[|PARAMS|..]) <==> forall c :: c in text[|PARAMS|..] ==> c !in "\n\r\U{2028}\U{2029}"
  {
    var rest := text[|PARAMS|..];
    if i :| 0 <= i < |rest| && LineTerminator(rest[i]) { assert rest[i] in rest; }
  }

  lemma FinalNewlineIsNotOneLine(name: string)
    ensures !OneLine(name + "\n")
  {
    assert LineTerminator((name + "\n")[|name|]);
  }

  lemma EditorParamIsRef(text: string)
    requires EditorParam(text).Some?
    ensures IsParamRef(text, EditorParam(text).value)
  {
    var rest := text[|PARAMS|..];
    assert text == PARAMS + rest;
    forall i | 0 <= i < |rest| ensures rest[i] != '\n' {
      assert !LineTerminator(rest[i]);
    }
  }

  /** Matching a value against a pattern turns it into text first; `asText` is that conversion. */
  type AsText = Value -> string

  ghost predicate KeepsText(asText: AsText) {
    forall s :: asText(Str(s)) == s
  }

  ghost function InputParam(v: Value, asText: AsText): Option<string> {
    EditorParam(asText(v))
  }

  ghost predicate Asked(def: Definition, name: string, asText: AsText) {
    exists d, key :: d in def.steps && key in d.inputs && InputParam(d.inputs[key], asText) == Some(name)
  }

  /** The run was given all parameters that the editor asks for. */
  ghost predicate Answered(def: Definition, params: Fields, asText: AsText) {
    KeepsText(asText) && forall n :: Asked(def, n, asText) ==> n in params
  }

  method ParamsOf(inputs: Fields, asText: AsText) returns (names: set<string>)
    ensures forall n :: n in names <==> exists key :: key in inputs && InputParam(inputs[key], asText) == Some(n)
  {
    names := {};
    var todo := inputs.Keys;
    while todo != {}
      invariant todo <= inputs.Keys
      invariant forall n :: n in names <==>
        exists key :: key in inputs && key !in todo && InputParam(inputs[key], asText) == Some(n)
    {
      var key :| key in todo;
      var m := EditorParam(asText(inputs[key]));
      if m.Some? { names := names + {m.value}; }
      todo := todo - {key};
    }
  }

  /** The names a saved definition asks its runs for. */
  method ExtractRunParams(def: Definition, asText: AsText) returns (names: set<string>)
    ensures forall n :: n in names <==> Asked(def, n, asText)
  {
    names := {};
    for i := 0 to |def.steps|
      invariant forall n :: n in names <==> Asked(def.(steps := def.steps[..i]), n, asText)
    {
      var more := ParamsOf(def.steps[i].inputs, asText);
      assert def.steps[..i + 1] == def.steps[..i] + [def.steps[i]];
      AskedMore(def, i, asText);
      names := names + more;
    }
    assert def.steps[..|def.steps|] == def.steps;
  }

  lemma AskedMore(def: Definition, i: nat, asText: AsText)
    requires i < |def.steps|
    ensures forall n :: Asked(def.(steps := def.steps[..i + 1]), n, asText) <==>
      || Asked(def.(steps := def.steps[..i]), n, asText)
      || exists key :: key in def.steps[i].inputs && InputParam(def.steps[i].inputs[key], asText) == Some(n)
  {
    hide EditorParam;
    assert def.steps[..i + 1] == def.steps[..i] + [def.steps[i]];
    forall n, key | key in def.steps[i].inputs && InputParam(def.steps[i].inputs[key], asText) == Some(n)
      ensures Asked(def.(steps := def.steps[..i + 1]), n, asText)
    {
      assert def.steps[i] in def.steps[..i + 1];
    }
  }

  // ---- What the editor writes, the engine resolves ----

  /** Port names are plain words, as the catalogue's are. */
  ghost predicate PlainKey(key: string) {
    key != "" && '.' !in key && OneLine(key)
  }

  ghost predicate PlainKeys(metas: Metas) {
    forall t, key :: t in metas && (key in metas[t].inputs || key in metas[t].outputs) ==> PlainKey(key)
  }

  lemma PlainKeyChars(key: string)
    requires PlainKey(key)
    ensures '\n' !in key
  {
    forall i | 0 <= i < |key| ensures key[i] != '\n' {
      assert !LineTerminator(key[i]);
    }
  }

  /** A step id, even one with ".outputs." in it, reads back iff it is not empty and has no newline. */
  lemma EmittedRefReadsBackIff(id: Id, key: string)
    requires PlainKey(key)
    ensures Classify(StepText(id, key)) == StepRef(id, key) <==> id != "" && '\n' !in id
  {
    if id != "" && '\n' !in id { StepRefReadsBack(id, key); }
  }

  /** Whatever a written reference reads back as, it can only name the step it was written for. */
  lemma EmittedRefNamesOnly(id: Id, key: string)
    requires PlainKey(key)
    ensures Classify(StepText(id, key)).StepRef? ==> Classify(StepText(id, key)).step == id
  {
    var text, c := StepText(id, key), Classify(StepText(id, key));
    if c.StepRef? {
      LastDotAt(text, id, key);
      LastDotAt(text, c.step, c.output);
      hide Classify, LastDot;
      assert id == text[|STEPS|..|STEPS| + |id|] == c.step;
    }
  }

  lemma LastDotAt(text: string, id: Id, key: string)
    requires text == StepText(id, key) && '.' !in key
    ensures LastDot(text) == |STEPS| + |id| + |OUTPUTS| - 1
  {
    var k := |STEPS| + |id| + |OUTPUTS| - 1;
    assert text[k] == OUTPUTS[|OUTPUTS| - 1] == '.';
    forall j | k < j < |text| ensures text[j] != '.' {
      assert text[j] == key[j - k - 1];
    }
  }

  lemma InputNames(metas: Metas, nodes: seq<Node>, edges: seq<Edge>, node: Id, typeKey: string, inputs: Fields,
                   key: string)
    requires PlainKeys(metas) && Wired(metas, nodes, edges, node, typeKey, inputs) && key in inputs
    ensures RefsWithin(inputs[key], EngineInputs.Ancestors(edges, node))
  {
    var ref := inputs[key].s;
    assert PlainKey(key);
    PlainKeyChars(key);
    if p :| Nearest(metas, ById(nodes), edges, node, key, Some(p)) && ref == StepText(p, key) {
      var d: nat :| At(edges, p, node, d);
      AtIsAncestor(edges, p, node, d);
      EmittedRefNamesOnly(p, key);
    } else {
      assert ref == PARAMS + key;
      ParamRefReadsBack(key);
    }
  }

  /** Editor-built workflows meet the hypothesis of confluence: references name proper ancestors. */
  lemma WiredRefsAreAncestors(metas: Metas, nodes: seq<Node>, def: Definition)
    requires PlainKeys(metas) && SavedBy(metas, nodes, def)
    ensures EngineInputs.RefsToAncestors(def)
  {
    forall x | x in Ids(def.steps)
      ensures RefsWithin(Obj(Find(def.steps, x).inputs), EngineInputs.Ancestors(def.edges, x))
    {
      var d := Find(def.steps, x);
      var i :| 0 <= i < |def.steps| && def.steps[i] == d;
      assert StepFrom(metas, nodes, def, nodes[i], d);
      forall key | key in d.inputs ensures RefsWithin(d.inputs[key], EngineInputs.Ancestors(def.edges, x)) {
        InputNames(metas, nodes, def.edges, x, d.stype, d.inputs, key);
      }
    }
  }

  /** Every succeeded step recorded its outputs, and among them the ports its type declares. */
  ghost predicate Recorded(metas: Metas, nodes: seq<Node>, status: map<Id, Status>, outputs: map<Id, Fields>) {
    forall a :: a in status && status[a] == Succeeded ==>
      && a in outputs
      && forall key :: Provides(metas, ById(nodes), a, key) ==> key in outputs[a]
  }

  lemma StepInputResolves(id: Id, key: string, outputs: map<Id, Fields>, params: Fields)
    requires PlainKey(key) && id != "" && '\n' !in id && id in outputs && key in outputs[id]
    ensures Resolve(Str(StepText(id, key)), outputs, params) == Ok(outputs[id][key])
  {
    StepRefReadsBack(id, key);
    hide Classify;
  }

  lemma ParamInputResolves(def: Definition, d: StepDef, key: string, outputs: map<Id, Fields>, params: Fields,
                          asText: AsText)
    requires PlainKey(key) && d in def.steps && key in d.inputs && d.inputs[key] == Str(PARAMS + key)
    requires Answered(def, params, asText)
    ensures key in params && Resolve(d.inputs[key], outputs, params) == Ok(params[key])
  {
    PlainKeyChars(key);
    ParamRefReadsBack(key);
    hide Classify;
    assert d.inputs[key].s[|PARAMS|..] == key;
    assert InputParam(d.inputs[key], asText) == Some(key);
    assert Asked(def, key, asText);
  }

  /** A wired input resolves to the nearest provider's output, or to the run parameter. */
  lemma InputResolves(metas: Metas, nodes: seq<Node>, def: Definition, d: StepDef, key: string,
                      status: map<Id, Status>, outputs: map<Id, Fields>, params: Fields, asText: AsText)
    requires PlainKeys(metas) && d in def.steps && key in d.inputs
    requires Wired(metas, nodes, def.edges, d.id, d.stype, d.inputs)
    requires forall a :: a in ById(nodes) ==> a != "" && '\n' !in a
    requires forall a :: a in EngineInputs.Ancestors(def.edges, d.id) ==> a in status && status[a] == Succeeded
    requires Recorded(metas, nodes, status, outputs) && Answered(def, params, asText)
    ensures ResolvesWired(metas, nodes, def, d, key, outputs, params)
  {
    assert PlainKey(key);
    var ref := d.inputs[key].s;
    if p :| Nearest(metas, ById(nodes), def.edges, d.id, key, Some(p)) && ref == StepText(p, key) {
      var k: nat :| At(def.edges, p, d.id, k);
      AtIsAncestor(def.edges, p, d.id, k);
      hide At, Answered, PlainKeys, PlainKey, Resolve, StepText, Nearest;
      StepInputResolves(p, key, outputs, params);
    } else {
      hide Nearest, Answered, Resolve;
      ParamInputResolves(def, d, key, outputs, params, asText);
    }
  }

  ghost predicate ResolvesWired(metas: Metas, nodes: seq<Node>, def: Definition, d: StepDef, key: string,
                                outputs: map<Id, Fields>, params: Fields)
    requires key in d.inputs
  {
    || (exists p ::
          && Nearest(metas, ById(nodes), def.edges, d.id, key, Some(p)) && p in outputs && key in outputs[p]
          && Resolve(d.inputs[key], outputs, params) == Ok(outputs[p][key]))
    || (&& Nearest(metas, ById(nodes), def.edges, d.id, key, None) && key in params
        && Resolve(d.inputs[key], outputs, params) == Ok(params[key]))
  }

  /** The value is the nearest provider's output, or the run parameter of the port's name. */
  ghost predicate WiredValue(metas: Metas, nodes: seq<Node>, def: Definition, x: Id, key: string,
                             outputs: map<Id, Fields>, params: Fields, value: Value)
  {
    || (exists p ::
          && Nearest(metas, ById(nodes), def.edges, x, key, Some(p)) && p in outputs && key in outputs[p]
          && value == outputs[p][key])
    || (Nearest(metas, ById(nodes), def.edges, x, key, None) && key in params && value == params[key])
  }

  /**
   * Wiring is resolvable: when an advance reaches a ready step of an editor-built workflow, it creates
   * the step's row, and each wired input of that row is what its wiring says, once the run has the
   * parameters the editor asked for and earlier steps recorded what their types declare.
   */
  lemma WiredStepResolves(metas: Metas, nodes: seq<Node>, accepts: Registry, job: Job, reuse: map<Id, Fields>,
                          pass: Pass, x: Id, asText: AsText)
    requires PlainKeys(metas) && SavedBy(metas, nodes, job.def) && x in Ids(job.def.steps) && job.HasIds()
    requires forall n :: n in nodes ==> n.id != "" && '\n' !in n.id
    requires EngineInputs.CausalStatus(job.def.edges, pass.status) && Ready(job.def.edges, x, pass.status)
    requires Recorded(metas, nodes, pass.status, pass.outputs) && Answered(job.def, job.params, asText)
    requires x !in pass.status && accepts(Find(job.def.steps, x).stype, Find(job.def.steps, x).config)
    ensures var v, d := Visit(accepts, job, reuse, pass, x), Find(job.def.steps, x);
      && v.Continue? && job.ids[x] in v.pass.created
      && var inputs := v.pass.created[job.ids[x]].inputs;
      if d.inputs == map[] then inputs == job.params
      else
        && inputs.Keys == d.inputs.Keys
        && forall key :: key in d.inputs ==>
             WiredValue(metas, nodes, job.def, x, key, pass.outputs, job.params, inputs[key])
  {
    var d := Find(job.def.steps, x);
    FieldsResolve(metas, nodes, job.def, d, pass.status, pass.outputs, job.params, asText);
    hide *;
    var inputs := WiredInputs(metas, nodes, job.def, d, pass.outputs, job.params);
    VisitMeaning(accepts, job, reuse, pass, x);
    RowIsWired(metas, nodes, job, pass, x, Visit(accepts, job, reuse, pass, x).pass.created[job.ids[x]]);
  }

  lemma FieldsResolve(metas: Metas, nodes: seq<Node>, def: Definition, d: StepDef, status: map<Id, Status>,
                      outputs: map<Id, Fields>, params: Fields, asText: AsText)
    requires PlainKeys(metas) && SavedBy(metas, nodes, def) && d in def.steps
    requires forall n :: n in nodes ==> n.id != "" && '\n' !in n.id
    requires EngineInputs.CausalStatus(def.edges, status) && Ready(def.edges, d.id, status)
    requires Recorded(metas, nodes, status, outputs) && Answered(def, params, asText)
    ensures forall key :: key in d.inputs ==> ResolvesWired(metas, nodes, def, d, key, outputs, params)
  {
    var i :| 0 <= i < |def.steps| && def.steps[i] == d;
    assert StepFrom(metas, nodes, def, nodes[i], d);
    EngineInputs.AncestorsDone(def.edges, status, d.id);
    ByIdKeys(nodes);
    hide PlainKeys, Answered, Recorded, Wired, SavedBy, EngineInputs.CausalStatus, Ready, Resolve;
    hide EngineInputs.Ancestors, ById;
    forall key | key in d.inputs ensures ResolvesWired(metas, nodes, def, d, key, outputs, params) {
      InputResolves(metas, nodes, def, d, key, status, outputs, params, asText);
    }
  }

  lemma WiredInputs(metas: Metas, nodes: seq<Node>, def: Definition, d: StepDef,
                    outputs: map<Id, Fields>, params: Fields) returns (inputs: Fields)
    requires forall key :: key in d.inputs ==> ResolvesWired(metas, nodes, def, d, key, outputs, params)
    ensures Freezes(d, outputs, params, inputs)
  {
    hide Nearest, Resolve, Denotes;
    assert forall key :: key in d.inputs ==> Resolve(d.inputs[key], outputs, params).Ok?;
    inputs := if d.inputs == map[] then params
              else map key | key in d.inputs :: Resolve(d.inputs[key], outputs, params).value;
    forall key | d.inputs != map[] && key in d.inputs ensures Denotes(d.inputs[key], inputs[key], outputs, params) {
      ResolvesToIff(d.inputs[key], inputs[key], outputs, params);
    }
  }

  lemma RowIsWired(metas: Metas, nodes: seq<Node>, job: Job, pass: Pass, x: Id, row: Row)
    requires x in Ids(job.def.steps) && x in job.ids && RowFor(job, pass, x, row)
    requires forall key :: key in Find(job.def.steps, x).inputs ==>
      ResolvesWired(metas, nodes, job.def, Find(job.def.steps, x), key, pass.outputs, job.params)
    ensures var d := Find(job.def.steps, x);
      if d.inputs == map[] then row.inputs == job.params
      else
        && row.inputs.Keys == d.inputs.Keys
        && forall key :: key in d.inputs ==>
             WiredValue(metas, nodes, job.def, x, key, pass.outputs, job.params, row.inputs[key])
  {
    var d := Find(job.def.steps, x);
    hide Nearest, Resolve, Denotes, Ids, Find, KeyOf;
    forall key | d.inputs != map[] && key in d.inputs
      ensures WiredValue(metas, nodes, job.def, x, key, pass.outputs, job.params, row.inputs[key])
    {
      assert key in row.inputs.Keys;
      ResolvesToIff(d.inputs[key], row.inputs[key], pass.outputs, job.params);
    }
  }

  lemma {:induction false} ByIdKeys(nodes: seq<Node>)
    ensures forall a :: a in ById(nodes) <==> exists n :: n in nodes && n.id == a
  {
    if nodes != [] {
      ByIdKeys(nodes[..|nodes| - 1]);
      assert nodes == nodes[..|nodes| - 1] + [nodes[|nodes| - 1]];
    }
  }
}

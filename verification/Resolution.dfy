/**
 * Whether the inputs of a ready step resolve. With references to ancestors only, this does not
 * depend on the schedule; with any other reference that can resolve at all, it does depend on what
 * steps other than the ancestors have done.
 */
module Resolution {
  import opened Prelude
  import opened Graphs
  import opened Refs
  import opened Workflow
  import opened Engine
  import opened EngineSafety
  import opened EngineRuns
  import opened EngineInputs
  import opened Confluence
  import opened Agreement

  // ---- References to ancestors resolve alike in every schedule ----

  lemma OutputsAgree(w: World, s: State, rank: map<nat, nat>, bound: nat, t: State, rank': map<nat, nat>,
                     bound': nat, p: nat, a: Id, v: Fields, v': Fields)
    requires Sound(w, s, p, rank, bound) && Sound(w, t, p, rank', bound') && SameSubmission(s.parents[p], t.parents[p])
    requires DoneValue(s.rows, p, a, v) && DoneValue(t.rows, p, a, v')
    ensures v == v'
  {
    var r: nat :| DoneRow(s.rows, r, p, a) && s.rows[r].outputs == v;
    var r': nat :| DoneRow(t.rows, r', p, a) && t.rows[r'].outputs == v';
    assert RowRanked(s, rank, bound, r);
    hide Sound, RowRanked;
    RowsAgree(w, s, rank, bound, t, rank', bound', p, r, r');
  }

  lemma FitsAgree(w: World, s: State, rank: map<nat, nat>, bound: nat, t: State, rank': map<nat, nat>,
                  bound': nat, p: nat, x: Id, outs: map<Id, Fields>, outs': map<Id, Fields>)
    requires Sound(w, s, p, rank, bound) && Sound(w, t, p, rank', bound') && SameSubmission(s.parents[p], t.parents[p])
    requires s.parents[p].def.Some?
    requires var def := s.parents[p].def.value;
      && x in Ids(def.steps) && RefsToAncestors(def)
      && Fits(s.rows, p, def.edges, x, outs) && Fits(t.rows, p, def.edges, x, outs')
    ensures var d := Find(s.parents[p].def.value.steps, x);
      FrozenInputs(d, outs, s.parents[p].params) == FrozenInputs(d, outs', s.parents[p].params)
  {
    var def := s.parents[p].def.value;
    hide Sound, Ancestors, FrozenInputs, DoneValue;
    forall a | a in Ancestors(def.edges, x) ensures a in outs && a in outs' && outs[a] == outs'[a] {
      OutputsAgree(w, s, rank, bound, t, rank', bound', p, a, outs[a], outs'[a]);
    }
    FrozenReadsOnlyRefs(Find(def.steps, x), outs, outs', s.parents[p].params, Ancestors(def.edges, x));
  }

  /** The advance committed by `e` left its loop with `pass`, in which step `x` is ready. */
  ghost predicate Meets(accepts: Registry, s: State, e: Event, s': State, pass: Pass, x: Id) {
    && e.Commit? && CommitStep(accepts, s, e.p, e.order, e.ids, e.reuse, s') && s.parents[e.p].def.Some?
    && x in Ids(s.parents[e.p].def.value.steps) && Ready(s.parents[e.p].def.value.edges, x, pass.status)
    && Decide(accepts, e.p, s.parents[e.p], s.locks[e.p], e.order, e.ids, e.reuse)
         in {Outcome.Fail(pass), Outcome.Keep(pass), Outcome.Complete(pass)}
  }

  /** What such an advance resolves from are the outputs the table has for the step's ancestors. */
  lemma PassFits(accepts: Registry, s: State, e: Event, s': State, pass: Pass, x: Id)
    requires Safe(s) && Explained(s) && Meets(accepts, s, e, s', pass, x)
    requires RefsToAncestors(s.parents[e.p].def.value)
    ensures Fits(s'.rows, e.p, s.parents[e.p].def.value.edges, x, pass.outputs)
  {
    var p, def := e.p, s.parents[e.p].def.value;
    var outcome := Decide(accepts, p, s.parents[p], s.locks[p], e.order, e.ids, e.reuse);
    hide Safe, Explained, Decide, RowsAdded, RefsToAncestors, ReuseFound, Settle, Ready;
    DefinedUnlessRejected(accepts, s.parents[p], p, s.locks[p], e.order, e.ids, e.reuse);
    SettleRows(s, p, outcome);
    var job := OutcomeAdds(accepts, s, p, e.order, e.ids, e.reuse);
    LockedIsPending(s, p);
    hide Choices, SnapshotSound, Coherent, InputsStand, ParentsGrow;
    CommitInputsStand(accepts, s, p, e.order.value, e.reuse, job, outcome);
    StandsFits(s, p, pass, job, x);
  }

  lemma StandsFits(s: State, p: nat, pass: Pass, job: Job, x: Id)
    requires job.HasIds() && RowsAdded(s, p, pass, job) && InputsStand(job, pass)
    requires Ready(job.def.edges, x, pass.status)
    ensures Fits(s.rows + pass.created, p, job.def.edges, x, pass.outputs)
  {
    AncestorsDone(job.def.edges, pass.status, x);
    hide RowsAdded, InputsStand, Ancestors, DoneValue, Ready;
    forall a | a in Ancestors(job.def.edges, x)
      ensures a in pass.outputs && DoneValue(s.rows + pass.created, p, a, pass.outputs[a])
    {
      PassOutputIsRow(s, p, pass, job, a);
    }
  }

  lemma CommitIsFaithful(w: World, evs: seq<Event>, s: State, e: Event, s': State)
    requires FaithfulRun(w, Init(), evs, s) && e.Commit? && Step(w.accepts, s, e, s')
    ensures FaithfulRun(w, Init(), evs + [e], s')
  {
    hide Step;
    assert (evs + [e])[..|evs|] == evs;
    assert Faithful(w, s, e);
  }

  /** What is known after an advance of a faithful history in which step `x` was ready. */
  lemma AdvanceFits(w: World, evs: seq<Event>, s: State, e: Event, s': State, pass: Pass, x: Id)
    returns (rank: map<nat, nat>, bound: nat)
    requires ReadsSettings(w) && FaithfulRun(w, Init(), evs, s) && Meets(w.accepts, s, e, s', pass, x)
    requires RefsToAncestors(s.parents[e.p].def.value)
    ensures Sound(w, s', e.p, rank, bound) && SameSubmission(s'.parents[e.p], s.parents[e.p])
    ensures Fits(s'.rows, e.p, s.parents[e.p].def.value.edges, x, pass.outputs)
  {
    hide FaithfulRun, Sound, Fits, Safe, Explained, Run, ReadsSettings, RefsToAncestors, Decide, Settle;
    FaithfulIsRun(w, Init(), evs, s);
    RunSafe(w.accepts, Init(), evs, s);
    RunExplained(w.accepts, evs, s);
    PassFits(w.accepts, s, e, s', pass, x);
    CommitParents(w.accepts, s, e.p, e.order, e.ids, e.reuse, s');
    hide CommitStep;
    CommitIsFaithful(w, evs, s, e, s');
    rank, bound := RunIsSound(w, evs + [e], s', e.p);
  }

  /**
   * Whether the inputs of a ready step resolve, and to what, is the same for every advance that
   * meets the step in any faithful history, if all references name ancestors.
   */
  lemma ResolutionAgrees(w: World, evs: seq<Event>, s: State, e: Event, s': State, pass: Pass,
                         evs': seq<Event>, t: State, e': Event, t': State, pass': Pass, x: Id)
    requires ReadsSettings(w) && FaithfulRun(w, Init(), evs, s) && FaithfulRun(w, Init(), evs', t)
    requires Meets(w.accepts, s, e, s', pass, x) && Meets(w.accepts, t, e', t', pass', x) && e.p == e'.p
    requires SameSubmission(s.parents[e.p], t.parents[e.p]) && RefsToAncestors(s.parents[e.p].def.value)
    ensures var d, params := Find(s.parents[e.p].def.value.steps, x), s.parents[e.p].params;
      FrozenInputs(d, pass.outputs, params) == FrozenInputs(d, pass'.outputs, params)
  {
    hide ReadsSettings, FaithfulRun, RefsToAncestors, Fits, Sound, FrozenInputs, CommitStep, Decide;
    var rank, bound := AdvanceFits(w, evs, s, e, s', pass, x);
    var rank', bound' := AdvanceFits(w, evs', t, e', t', pass', x);
    FitsAgree(w, s', rank, bound, t', rank', bound', e.p, x, pass.outputs, pass'.outputs);
  }

  // ---- Other references do not ----

  /** A reference to a step outside `allowed` makes resolution fail wherever that step has no outputs. */
  lemma {:induction false} OutsideRef(v: Value, allowed: iset<Id>, params: Fields) returns (a: Id)
    requires !RefsWithin(v, allowed)
    ensures a !in allowed && forall outs: map<Id, Fields> :: a !in outs ==> Resolve(v, outs, params).Err?
    decreases v
  {
    match v
    case Str(s) => a := Classify(s).step;
    case Arr(items) =>
      var i :| 0 <= i < |items| && !RefsWithin(items[i], allowed);
      a := OutsideRef(items[i], allowed, params);
    case Obj(fields) =>
      var k :| k in fields && !RefsWithin(fields[k], allowed);
      a := OutsideRef(fields[k], allowed, params);
  }

  /** The frozen inputs of a step are the same whatever steps other than its ancestors have done. */
  ghost predicate FixedByAncestors(def: Definition, x: Id, params: Fields)
    requires x in Ids(def.steps)
  {
    forall outs, outs' :: AgreeOn(outs, outs', Ancestors(def.edges, x)) ==>
      FrozenInputs(Find(def.steps, x), outs, params) == FrozenInputs(Find(def.steps, x), outs', params)
  }

  /** The string resolves once the step it names, if it names one, has the output. */
  ghost predicate Readable(text: string, params: Fields) {
    || (text == "" || text[0] != '$')
    || (exists step, output :: IsStepRef(text, step, output))
    || (exists name :: IsParamRef(text, name) && name in params)
  }

  /** No string of the template is unreadable or names a missing parameter. */
  ghost predicate Resolvable(d: StepDef, params: Fields) {
    forall text :: Occurs(text, Obj(d.inputs)) ==> Readable(text, params)
  }

  ghost function Strings(v: Value): (texts: set<string>)
    ensures forall text :: text in texts <==> Occurs(text, v)
    decreases v
  {
    match v
    case Str(s) => {s}
    case Arr(items) =>
      var strings := set i, text | 0 <= i < |items| && text in Strings(items[i]) :: text;
      assert forall i, text :: 0 <= i < |items| && text in Strings(items[i]) ==> text in strings;
      strings
    case Obj(fields) =>
      var strings := set k, text | k in fields && text in Strings(fields[k]) :: text;
      assert forall k, text :: k in fields && text in Strings(fields[k]) ==> text in strings;
      strings
    case _ => {}
  }

  /** Outputs with a value under every key that a string of `texts` refers to. */
  ghost function Everything(texts: set<string>): map<Id, Fields> {
    var keys := set text | text in texts && Classify(text).StepRef? :: Classify(text).output;
    var steps := set text | text in texts && Classify(text).StepRef? :: Classify(text).step;
    map step | step in steps :: map k | k in keys :: Null
  }

  lemma EverythingSupplies(texts: set<string>, text: string, params: Fields)
    requires text in texts && Readable(text, params)
    ensures Available(text, Everything(texts), params)
  {
    if step, output :| IsStepRef(text, step, output) {
      GrammarsDisjoint(text);
      assert Classify(text) == StepRef(step, output);
      hide Classify;
      assert step in Everything(texts) && output in Everything(texts)[step];
    }
  }

  /** Some outputs make the inputs of a step resolve exactly if each string of its template is readable. */
  lemma ResolvesSomehowIff(d: StepDef, params: Fields)
    ensures Resolvable(d, params) <==> exists outs :: FrozenInputs(d, outs, params).Ok?
  {
    if Resolvable(d, params) {
      var outs := Everything(Strings(Obj(d.inputs)));
      forall text | Occurs(text, Obj(d.inputs)) ensures Available(text, outs, params) {
        EverythingSupplies(Strings(Obj(d.inputs)), text, params);
      }
      FreezesWhen(d, outs, params);
    }
    if outs :| FrozenInputs(d, outs, params).Ok? {
      FreezesWhen(d, outs, params);
    }
  }

  lemma FreezesWhen(d: StepDef, outs: map<Id, Fields>, params: Fields)
    ensures FrozenInputs(d, outs, params).Ok? <==> AllAvailable(Obj(d.inputs), outs, params)
  {
    ResolvesIffAvailable(Obj(d.inputs), outs, params);
  }

  /**
   * For an arbitrary definition: what the inputs of a step resolve to, and whether they do, depends
   * on steps that are not its ancestors exactly if one of its references names such a step, and no
   * string of its template is unreadable or names a missing parameter.
   */
  lemma FixedByAncestorsIff(def: Definition, x: Id, params: Fields)
    requires x in Ids(def.steps)
    ensures FixedByAncestors(def, x, params) <==>
      RefsWithin(Obj(Find(def.steps, x).inputs), Ancestors(def.edges, x)) || !Resolvable(Find(def.steps, x), params)
  {
    ResolvesSomehowIff(Find(def.steps, x), params);
    if RefsWithin(Obj(Find(def.steps, x).inputs), Ancestors(def.edges, x)) {
      WithinFixes(def, x, params);
    } else if !Resolvable(Find(def.steps, x), params) {
      NeverFixes(def, x, params);
    } else {
      hide Resolvable, FixedByAncestors, RefsWithin, FrozenInputs;
      OutsideUnfixes(def, x, params);
    }
  }

  lemma WithinFixes(def: Definition, x: Id, params: Fields)
    requires x in Ids(def.steps) && RefsWithin(Obj(Find(def.steps, x).inputs), Ancestors(def.edges, x))
    ensures FixedByAncestors(def, x, params)
  {
    hide Ancestors, FrozenInputs, RefsWithin, AgreeOn;
    forall outs, outs' | AgreeOn(outs, outs', Ancestors(def.edges, x))
      ensures FrozenInputs(Find(def.steps, x), outs, params) == FrozenInputs(Find(def.steps, x), outs', params)
    {
      FrozenReadsOnlyRefs(Find(def.steps, x), outs, outs', params, Ancestors(def.edges, x));
    }
  }

  lemma NeverFixes(def: Definition, x: Id, params: Fields)
    requires x in Ids(def.steps) && forall outs :: FrozenInputs(Find(def.steps, x), outs, params).Err?
    ensures FixedByAncestors(def, x, params)
  {
    hide Ancestors, FrozenInputs, AgreeOn;
  }

  lemma OutsideUnfixes(def: Definition, x: Id, params: Fields)
    requires x in Ids(def.steps) && !RefsWithin(Obj(Find(def.steps, x).inputs), Ancestors(def.edges, x))
    requires exists outs :: FrozenInputs(Find(def.steps, x), outs, params).Ok?
    ensures !FixedByAncestors(def, x, params)
  {
    hide Ancestors, FrozenInputs, RefsWithin, AgreeOn;
    var outs :| FrozenInputs(Find(def.steps, x), outs, params).Ok?;
    var outs' := OtherOutputs(Find(def.steps, x), outs, params, Ancestors(def.edges, x));
  }

  /** Outputs that agree on the allowed steps and leave out one that the inputs need. */
  lemma OtherOutputs(d: StepDef, outs: map<Id, Fields>, params: Fields, allowed: iset<Id>)
    returns (outs': map<Id, Fields>)
    requires !RefsWithin(Obj(d.inputs), allowed)
    ensures AgreeOn(outs, outs', allowed) && FrozenInputs(d, outs', params).Err?
  {
    var a := OutsideRef(Obj(d.inputs), allowed, params);
    outs' := outs - {a};
    WithoutIt(d, outs', params);
  }

  lemma WithoutIt(d: StepDef, outs: map<Id, Fields>, params: Fields)
    requires d.inputs != map[] && Resolve(Obj(d.inputs), outs, params).Err?
    ensures FrozenInputs(d, outs, params).Err?
  {
  }

  // ---- References in reachable histories of arbitrary definitions ----

  ghost predicate Mentions(d: StepDef, y: Id) {
    exists text, output :: Occurs(text, Obj(d.inputs)) && IsStepRef(text, y, output)
  }

  lemma MentionIsNeeded(d: StepDef, outs: map<Id, Fields>, params: Fields, y: Id)
    requires Mentions(d, y) && FrozenInputs(d, outs, params).Ok?
    ensures y in outs
  {
    FreezesWhen(d, outs, params);
    var text, output :| Occurs(text, Obj(d.inputs)) && IsStepRef(text, y, output);
    GrammarsDisjoint(text);
    assert text[0] == STEPS[0];
    hide Occurs;
    assert Available(text, outs, params);
  }

  /** In every reachable state, the steps that a child's template refers to have succeeded in its run. */
  lemma ReferencedStepsDone(accepts: Registry, evs: seq<Event>, s: State, r: nat, y: Id)
    requires Run(accepts, Init(), evs, s) && r in s.rows
    ensures var row := s.rows[r];
      && row.parent in s.parents && s.parents[row.parent].def.Some?
      && var steps := s.parents[row.parent].def.value.steps;
      row.step in Ids(steps) && (Mentions(Find(steps, row.step), y) ==> DoneChild(s.rows, row.parent, y))
  {
    hide Run, Mentions, FrozenInputs;
    var rank, bound := RunRanked(accepts, evs, s);
    assert RowRanked(s, rank, bound, r);
    var row, parent := s.rows[r], s.parents[s.rows[r].parent];
    var outs :| ResolvedFrom(s.rows, row, parent, rank, rank[r], outs);
    if Mentions(Find(parent.def.value.steps, row.step), y) {
      MentionIsNeeded(Find(parent.def.value.steps, row.step), outs, parent.params, y);
      assert Backing(s.rows, row.parent, rank, rank[r], y, outs[y]);
    }
  }

  /** The outputs are those that succeeded children of the run hold in the table. */
  ghost predicate FromTable(rows: map<nat, Row>, p: nat, outs: map<Id, Fields>) {
    forall y :: y in outs ==> DoneValue(rows, p, y, outs[y])
  }

  /**
   * In every reachable state, the inputs of a child are its step's template with each field resolved
   * against outputs that succeeded children of its run hold, or the run parameters without a template.
   */
  lemma FrozenInEveryHistory(accepts: Registry, evs: seq<Event>, s: State, r: nat)
    requires Run(accepts, Init(), evs, s) && r in s.rows
    ensures var row := s.rows[r];
      && row.parent in s.parents && s.parents[row.parent].def.Some?
      && var parent := s.parents[row.parent];
      && row.step in Ids(parent.def.value.steps)
      && exists outs :: FromTable(s.rows, row.parent, outs)
           && Freezes(Find(parent.def.value.steps, row.step), outs, parent.params, row.inputs)
  {
    hide Run, FrozenInputs, Freezes;
    var rank, bound := RunRanked(accepts, evs, s);
    assert RowRanked(s, rank, bound, r);
    var row, parent := s.rows[r], s.parents[s.rows[r].parent];
    var outs :| ResolvedFrom(s.rows, row, parent, rank, rank[r], outs);
    FreezesIff(Find(parent.def.value.steps, row.step), outs, parent.params, row.inputs);
    forall y | y in outs ensures DoneValue(s.rows, row.parent, y, outs[y]) {
      assert Backing(s.rows, row.parent, rank, rank[r], y, outs[y]);
    }
  }

  /** The template of `x` refers to `x` itself or to a step that waits for `x`. */
  ghost predicate RefersAhead(def: Definition, x: Id, y: Id) {
    x in Ids(def.steps) && Mentions(Find(def.steps, x), y) && (y == x || Ancestor(def.edges, x, y))
  }

  lemma AheadIsStep(def: Definition, x: Id, y: Id)
    requires RefersAhead(def, x, y)
    ensures x in Ids(def.steps)
  {
  }

  lemma {:induction false} WalkStays(edges: seq<Edge>, order: seq<Id>, walk: seq<Id>, i: nat)
    requires forall k :: 0 <= k < |order| ==> PredsIn(edges, order[k], order[..k])
    requires |walk| > 1 && IsWalk(edges, walk) && i <= |order| && walk[|walk| - 1] in order[..i]
    ensures walk[0] in order[..i]
    decreases |walk|
  {
    var n := |walk| - 1;
    assert Edge(walk[n - 1], walk[n]) in edges;
    var k :| 0 <= k < i && order[k] == walk[n];
    assert PredsIn(edges, order[k], order[..k]);
    assert order[..k] <= order[..i];
    if n > 1 {
      assert IsWalk(edges, walk[..n]);
      WalkStays(edges, order, walk[..n], i);
    }
  }

  /** What is visited before `x` is neither `x` nor a step that waits for it. */
  lemma NotBefore(def: Definition, order: seq<Id>, i: nat, y: Id)
    requires KahnOrder(Ids(def.steps), def.edges, order) && i < |order|
    requires y == order[i] || Ancestor(def.edges, order[i], y)
    ensures y !in order[..i]
  {
    if y in order[..i] {
      if y != order[i] {
        var walk :| |walk| > 1 && IsWalk(def.edges, walk) && walk[0] == order[i] && walk[|walk| - 1] == y;
        WalkStays(def.edges, order, walk, i);
      }
      assert false;
    }
  }

  lemma ChildNeedsChild(s: State, p: nat, x: Id, y: Id)
    requires Typed(s) && Causal(s) && p in s.parents && s.parents[p].def.Some? && HasChild(s.rows, p, y)
    requires y == x || Ancestor(s.parents[p].def.value.edges, x, y)
    ensures HasChild(s.rows, p, x)
  {
    if y != x {
      var r: nat :| IsChild(s.rows, r, p) && s.rows[r].step == y;
      assert RowTyped(s.parents, r, s.rows[r]);
      assert PredsDone(s.rows, s.parents[p].def.value.edges, p, y);
      hide PredsDone, RowTyped, Ancestor;
      AncestorChildren(s, p, y);
      hide Typed, Causal;
      assert x in Ancestors(s.parents[p].def.value.edges, y);
      DoneHasChild(s.rows, p, x);
    }
  }

  lemma DoneHasChild(rows: map<nat, Row>, p: nat, x: Id)
    requires DoneChild(rows, p, x)
    ensures HasChild(rows, p, x)
  {
    var r: nat :| DoneRow(rows, r, p, x);
    assert IsChild(rows, r, p);
  }

  lemma SafeRows(s: State)
    requires Safe(s)
    ensures Typed(s) && Causal(s)
  {
  }

  /** A commit cannot create a step that refers ahead, as it has no child yet to read from. */
  lemma AheadNotAdded(accepts: Registry, s: State, p: nat, order: seq<Id>, ids: map<Id, nat>,
                      reuse: map<Id, Fields>, s': State, x: Id, y: Id, r: nat)
    requires Safe(s) && CommitStep(accepts, s, p, Some(order), ids, reuse, s') && s.parents[p].def.Some?
    requires RefersAhead(s.parents[p].def.value, x, y) && !HasChild(s.rows, p, x)
    requires r in s'.rows && r !in s.rows
    ensures s'.rows[r].step != x
  {
    var def := s.parents[p].def.value;
    SafeRows(s);
    if HasChild(s.rows, p, y) { ChildNeedsChild(s, p, x, y); }
    hide Typed, Causal, Safe, RowsAdded, PassSourced, Mentions, Ancestor;
    SortedBy(accepts, s, p, order, ids, reuse, s');
    var job, pass := CommitAdds(accepts, s, p, order, ids, reuse, s');
    hide CommitStep;
    AheadUnresolved(s, p, job, pass, order, x, y, r);
  }

  lemma SortedBy(accepts: Registry, s: State, p: nat, order: seq<Id>, ids: map<Id, nat>,
                 reuse: map<Id, Fields>, s': State)
    requires CommitStep(accepts, s, p, Some(order), ids, reuse, s') && s.parents[p].def.Some?
    ensures KahnOrder(Ids(s.parents[p].def.value.steps), s.parents[p].def.value.edges, order)
  {
    hide Decide, Settle, KahnOrder;
  }

  lemma AheadUnresolved(s: State, p: nat, job: Job, pass: Pass, order: seq<Id>, x: Id, y: Id, r: nat)
    requires job.HasIds() && RowsAdded(s, p, pass, job) && PassSourced(job, StartPass(s.locks[p]), pass, order)
    requires KahnOrder(Ids(job.def.steps), job.def.edges, order)
    requires RefersAhead(job.def, x, y) && !HasChild(s.rows, p, y) && r in pass.created
    ensures pass.created[r].step != x
  {
    if pass.created[r].step == x {
      var row, start := pass.created[r], StartPass(s.locks[p]);
      assert RowSourced(job, start, pass, order, row);
      var i: nat, outs :| RowSource(job, start, pass, order, row, i, outs);
      assert y !in s.locks[p].status && y !in s.locks[p].outputs;
      hide RowsAdded, Mentions, FrozenInputs, KahnOrder;
      MentionIsNeeded(Find(job.def.steps, x), outs, job.params, y);
      NotBefore(job.def, order, i, y);
      assert false;
    }
  }

  lemma StillUnborn(accepts: Registry, m: State, e: Event, s: State, p: nat, x: Id, y: Id, r: nat)
    requires Safe(m) && Step(accepts, m, e, s) && ParentsGrow(m.parents, s.parents)
    requires p in s.parents && s.parents[p].def.Some? && RefersAhead(s.parents[p].def.value, x, y)
    requires p in m.parents ==> !HasChild(m.rows, p, x)
    requires IsChild(s.rows, r, p)
    ensures s.rows[r].step != x
  {
    StepEvolves(accepts, m, e, s);
    hide RefersAhead, Step;
    if r in m.rows {
      RowIsTyped(m, r);
      assert RowKept(m.rows[r], s.rows[r]);
      hide Safe, Evolves;
      assert s.rows[r].step == x ==> IsChild(m.rows, r, p);
    } else {
      hide Evolves;
      OnlyCommitAdds(accepts, m, e, s, r);
      CommitEvolves(accepts, m, e.p, e.order, e.ids, e.reuse, s);
      AddedElsewhere(accepts, m, e, s, r);
      hide Safe, CommitStep;
      AheadNotAdded(accepts, m, p, e.order.value, e.ids, e.reuse, s, x, y, r);
    }
  }

  lemma AddedElsewhere(accepts: Registry, m: State, e: Event, s: State, r: nat)
    requires e.Commit? && CommitStep(accepts, m, e.p, e.order, e.ids, e.reuse, s) && r in s.rows && r !in m.rows
    ensures e.p in m.parents && e.order.Some?
  {
    if e.order.None? { RejectAddsNothing(accepts, m, e.p, e.ids, e.reuse, s); }
    hide Decide, Settle;
  }

  lemma SucceededHasChild(s: State, p: nat, x: Id)
    requires Safe(s) && p in s.parents && s.parents[p].def.Some? && x in Ids(s.parents[p].def.value.steps)
    requires s.parents[p].status == Succeeded
    ensures HasChild(s.rows, p, x)
  {
    assert AllStepsDone(s.rows, p, s.parents[p]);
    hide Safe;
    DoneHasChild(s.rows, p, x);
  }

  /**
   * A step whose template refers to itself or to a step that waits for it is never created, in any
   * history, so its run never succeeds.
   */
  lemma {:induction false} RefersAheadNeverBorn(accepts: Registry, evs: seq<Event>, s: State, p: nat, x: Id, y: Id)
    requires Run(accepts, Init(), evs, s) && p in s.parents && s.parents[p].def.Some?
    requires RefersAhead(s.parents[p].def.value, x, y)
    ensures !HasChild(s.rows, p, x) && s.parents[p].status != Succeeded
    decreases |evs|
  {
    hide RefersAhead;
    if evs != [] {
      var n := |evs| - 1;
      var m := RunSplit(accepts, Init(), evs, s);
      hide Run;
      RunSafe(accepts, Init(), evs[..n], m);
      StepSafe(accepts, m, evs[n], s);
      StepParentsGrow(accepts, m, evs[n], s);
      hide Safe, Step;
      if p in m.parents { RefersAheadNeverBorn(accepts, evs[..n], m, p, x, y); }
      if r: nat :| IsChild(s.rows, r, p) && s.rows[r].step == x {
        StillUnborn(accepts, m, evs[n], s, p, x, y, r);
      }
      assert x in Ids(s.parents[p].def.value.steps) by { AheadIsStep(s.parents[p].def.value, x, y); }
      if s.parents[p].status == Succeeded { SucceededHasChild(s, p, x); }
    }
  }
}

/**
 * What a step computes and what it computes it from: copying the outputs of an earlier run with
 * an equal key is the same as executing the step, and the inputs frozen into a row are determined
 * by the outputs of the step's ancestors.
 */
module EngineInputs {
  import opened Prelude
  import opened Graphs
  import opened Refs
  import opened Workflow
  import opened Engine
  import opened EngineSafety
  import opened EngineRuns

  /** What the steps compute: `exec` for ordinary steps, `gate` for human reviews. */
  datatype World = World(accepts: Registry, exec: (string, Fields, Fields) -> Fields,
                         gate: (nat, Id) -> Fields)

  /** Steps act on what their configuration sets, where auto-labelling has a default threshold. */
  ghost predicate ReadsSettings(w: World) {
    forall t, c, c', i :: SameSettings(t, c, c') ==> w.exec(t, c, i) == w.exec(t, c', i)
  }

  function StepValue(w: World, p: nat, step: Id, stype: string, config: Fields, inputs: Fields): Fields {
    if stype == HUMAN_REVIEW then w.gate(p, step) else w.exec(stype, config, inputs)
  }

  function RowValue(w: World, row: Row): Fields {
    StepValue(w, row.parent, row.step, row.stype, row.config, row.inputs)
  }

  /** The event is consistent with what the steps compute. */
  ghost predicate Faithful(w: World, s: State, e: Event) {
    match e
    case Finish(r, outputs) => r in s.rows && outputs == RowValue(w, s.rows[r])
    case Resume(r, outputs) => r in s.rows && outputs == RowValue(w, s.rows[r])
    case _ => true
  }

  ghost predicate FaithfulRun(w: World, s: State, evs: seq<Event>, s': State)
    decreases |evs|
  {
    if evs == [] then s == s'
    else
      var n := |evs| - 1;
      exists m :: FaithfulRun(w, s, evs[..n], m) && Step(w.accepts, m, evs[n], s')
               && Faithful(w, m, evs[n])
  }

  lemma {:induction false} FaithfulIsRun(w: World, s: State, evs: seq<Event>, s': State)
    requires FaithfulRun(w, s, evs, s')
    ensures Run(w.accepts, s, evs, s')
    decreases |evs|
  {
    if evs != [] {
      var n := |evs| - 1;
      var m :| FaithfulRun(w, s, evs[..n], m) && Step(w.accepts, m, evs[n], s');
      FaithfulIsRun(w, s, evs[..n], m);
    }
  }

  lemma FaithfulSnoc(w: World, s: State, evs: seq<Event>, m: State, e: Event, s': State)
    requires FaithfulRun(w, s, evs, m) && Step(w.accepts, m, e, s') && Faithful(w, m, e)
    ensures FaithfulRun(w, s, evs + [e], s')
  {
    hide Step, Faithful;
    var more := evs + [e];
    assert more[..|more| - 1] == evs && more[|more| - 1] == e;
  }

  lemma {:induction false} FaithfulAppend(w: World, s: State, evs: seq<Event>, m: State, more: seq<Event>, s': State)
    requires FaithfulRun(w, s, evs, m) && FaithfulRun(w, m, more, s')
    ensures FaithfulRun(w, s, evs + more, s')
    decreases |more|
  {
    hide Step, Faithful;
    if more == [] {
      assert evs + more == evs;
    } else {
      var n := |more| - 1;
      var k :| FaithfulRun(w, m, more[..n], k) && Step(w.accepts, k, more[n], s') && Faithful(w, k, more[n]);
      hide FaithfulRun;
      FaithfulAppend(w, s, evs, m, more[..n], k);
      FaithfulSnoc(w, s, evs + more[..n], k, more[n], s');
      assert evs + more[..n] + [more[n]] == evs + more;
    }
  }

  // ---- Reuse transparency ----

  /** Every succeeded row, executed or copied, holds what its step computes on its own inputs. */
  ghost predicate Transparent(w: World, rows: map<nat, Row>) {
    forall r :: r in rows && rows[r].status == Succeeded ==> rows[r].outputs == RowValue(w, rows[r])
  }

  /** Equal keys mean equal values; a review's fresh key is never found again. */
  lemma EqualKeysEqualValues(w: World, s: State, r: nat, id: nat, row: Row)
    requires ReadsSettings(w) && Typed(s) && r in s.rows && id !in s.rows
    requires row.key == KeyOf(row.stype, row.config, row.inputs, id)
    requires IsPrior(s.rows[r], row.stype, row.key)
    ensures row.stype != HUMAN_REVIEW && RowValue(w, row) == RowValue(w, s.rows[r])
  {
    assert RowTyped(s.parents, r, s.rows[r]);
    var old_ := s.rows[r];
    KeysEqualIff(row.stype, row.config, row.inputs, id, old_.stype, old_.config, old_.inputs, r);
    hide KeyOf, SameSettings;
  }

  /** `old_` is a finished run of the same work: of the same type, on equal inputs, set the same. */
  ghost predicate SameWork(old_: Row, row: Row) {
    && old_.status == Succeeded && old_.stype == row.stype && row.stype != "step.human_review"
    && old_.inputs == row.inputs && SameSettings(row.stype, old_.config, row.config)
  }

  lemma PriorIff(s: State, r: nat, id: nat, row: Row)
    requires Typed(s) && r in s.rows && id !in s.rows
    requires row.key == KeyOf(row.stype, row.config, row.inputs, id)
    ensures IsPrior(s.rows[r], row.stype, row.key) <==> SameWork(s.rows[r], row)
  {
    assert RowTyped(s.parents, r, s.rows[r]);
    var old_ := s.rows[r];
    KeysEqualIff(old_.stype, old_.config, old_.inputs, r, row.stype, row.config, row.inputs, id);
    hide KeyOf, SameSettings, Typed;
  }

  /** What an advance copies: exactly the steps whose work some run in the table has already done. */
  lemma CopiesExactly(s: State, p: nat, pass: Pass, job: Job, c: nat)
    requires Typed(s) && job.HasIds() && RowsAdded(s, p, pass, job) && ReuseExact(s.rows, pass.created)
    requires c in pass.created
    ensures pass.created[c].status == Succeeded || pass.created[c].status == Pending
    ensures pass.created[c].status == Succeeded <==> exists r :: r in s.rows && SameWork(s.rows[r], pass.created[c])
    ensures pass.created[c].status == Succeeded ==>
      exists r :: r in s.rows && SameWork(s.rows[r], pass.created[c]) && s.rows[r].outputs == pass.created[c].outputs
  {
    NewRowFacts(s, p, pass, job, c);
    var row := pass.created[c];
    hide RowsAdded, Typed, KeyOf, SameWork, IsPrior;
    forall r | r in s.rows ensures IsPrior(s.rows[r], row.stype, row.key) <==> SameWork(s.rows[r], row) {
      PriorIff(s, r, c, row);
    }
  }

  lemma AddedTransparent(w: World, s: State, p: nat, pass: Pass, job: Job)
    requires ReadsSettings(w) && Typed(s) && Transparent(w, s.rows)
    requires job.HasIds() && RowsAdded(s, p, pass, job) && ReuseFound(s.rows, pass.created)
    ensures Transparent(w, s.rows + pass.created)
  {
    AddedGrow(s, p, pass, job);
    forall c | c in pass.created && pass.created[c].status == Succeeded
      ensures pass.created[c].outputs == RowValue(w, pass.created[c])
    {
      NewRowFacts(s, p, pass, job, c);
      var row := pass.created[c];
      var r :| r in s.rows && IsPrior(s.rows[r], row.stype, row.key) && s.rows[r].outputs == row.outputs;
      EqualKeysEqualValues(w, s, r, c, row);
    }
  }

  lemma CommitTransparent(w: World, s: State, p: nat, order: Option<seq<Id>>, ids: map<Id, nat>,
                          reuse: map<Id, Fields>, s': State)
    requires ReadsSettings(w) && Safe(s) && Transparent(w, s.rows)
    requires CommitStep(w.accepts, s, p, order, ids, reuse, s')
    ensures Transparent(w, s'.rows)
  {
    hide Decide, RowsAdded, Transparent, ReadsSettings, SortAnswer, ReuseFound;
    var outcome := Decide(w.accepts, p, s.parents[p], s.locks[p], order, ids, reuse);
    if outcome.Fail? || outcome.Keep? || outcome.Complete? {
      DefinedUnlessRejected(w.accepts, s.parents[p], p, s.locks[p], order, ids, reuse);
      var job := OutcomeAdds(w.accepts, s, p, order, ids, reuse);
      AddedTransparent(w, s, p, outcome.pass, job);
      hide Safe, Choices;
      assert s'.rows == s.rows + outcome.pass.created;
    } else {
      hide Safe, Choices;
      assert s'.rows == s.rows;
    }
  }

  lemma SucceedTransparent(w: World, s: State, r: nat, from: Status, outputs: Fields, s': State)
    requires Transparent(w, s.rows) && SucceedStep(s, r, from, outputs, s')
    requires outputs == RowValue(w, s.rows[r])
    ensures Transparent(w, s'.rows)
  {
  }

  lemma MoveTransparent(w: World, s: State, r: nat, from: Status, to: Status, outputs: Fields, s': State)
    requires Transparent(w, s.rows) && MoveRow(s, r, from, to, outputs, s') && to != Succeeded
    ensures Transparent(w, s'.rows)
  {
  }

  lemma FailTransparent(w: World, s: State, r: nat, from: Status, s': State)
    requires Transparent(w, s.rows) && FailRowStep(s, r, from, s')
    ensures Transparent(w, s'.rows)
  {
  }

  lemma StepTransparent(w: World, s: State, e: Event, s': State)
    requires ReadsSettings(w) && Safe(s) && Transparent(w, s.rows)
    requires Step(w.accepts, s, e, s') && Faithful(w, s, e)
    ensures Transparent(w, s'.rows)
  {
    hide Safe, ReadsSettings, Transparent, MoveRow, FailRowStep, CommitStep, SubmitStep, KickStep;
    hide BeginStep, AbortStep, LoseAdvanceStep, TrafficStep, SucceedStep, RowValue;
    match e
    case Commit(p, order, ids, reuse) => CommitTransparent(w, s, p, order, ids, reuse, s');
    case Finish(r, outputs) => SucceedTransparent(w, s, r, Running, outputs, s');
    case Resume(r, outputs) => SucceedTransparent(w, s, r, Waiting, outputs, s');
    case Claim(r) =>
      assert ClaimStep(s, r, s');
      MoveTransparent(w, s, r, Pending, Running, s.rows[r].outputs, s');
    case Park(r, gate) =>
      MoveTransparent(w, s, r, Running, Waiting, map["gate_data" := Obj(gate)], s');
    case ClaimUnknown(r) => FailTransparent(w, s, r, Pending, s');
    case FailStep(r) => FailTransparent(w, s, r, Running, s');
    case _ => QuietRows(w.accepts, s, e, s');
  }

  /**
   * Reuse transparency over all workflows sharing the table: each succeeded row carries the value
   * its step computes, so copying a row found by its key is the same as executing the step.
   */
  lemma {:induction false} ReuseTransparency(w: World, evs: seq<Event>, s: State)
    requires ReadsSettings(w) && FaithfulRun(w, Init(), evs, s)
    ensures Transparent(w, s.rows)
    decreases |evs|
  {
    if evs != [] {
      var n := |evs| - 1;
      var m :| FaithfulRun(w, Init(), evs[..n], m) && Step(w.accepts, m, evs[n], s)
            && Faithful(w, m, evs[n]);
      ReuseTransparency(w, evs[..n], m);
      FaithfulIsRun(w, Init(), evs[..n], m);
      RunSafe(w.accepts, Init(), evs[..n], m);
      StepTransparent(w, m, evs[n], s);
    }
  }

  // ---- Frozen inputs depend on ancestors only ----

  ghost function Ancestors(edges: seq<Edge>, x: Id): iset<Id> {
    iset a | Ancestor(edges, a, x)
  }

  /** Every step reference of every step names one of its proper ancestors. */
  ghost predicate RefsToAncestors(def: Definition) {
    forall x :: x in Ids(def.steps) ==>
      RefsWithin(Obj(Find(def.steps, x).inputs), Ancestors(def.edges, x))
  }

  lemma FrozenReadsOnlyRefs(d: StepDef, a: map<Id, Fields>, b: map<Id, Fields>, params: Fields,
                            allowed: iset<Id>)
    requires RefsWithin(Obj(d.inputs), allowed) && AgreeOn(a, b, allowed)
    ensures FrozenInputs(d, a, params) == FrozenInputs(d, b, params)
  {
    ResolveReadsOnlyRefs(Obj(d.inputs), a, b, params, allowed);
  }

  /** Children exist only below succeeded predecessors, as seen in a status dictionary. */
  ghost predicate CausalStatus(edges: seq<Edge>, status: map<Id, Status>) {
    forall x :: x in status ==> Ready(edges, x, status)
  }

  lemma {:induction false} WalkDone(edges: seq<Edge>, status: map<Id, Status>, walk: seq<Id>)
    requires CausalStatus(edges, status) && |walk| > 1 && IsWalk(edges, walk)
    requires Ready(edges, walk[|walk| - 1], status)
    ensures walk[0] in status && status[walk[0]] == Succeeded
    decreases |walk|
  {
    var n := |walk| - 1;
    assert Edge(walk[n - 1], walk[n]) in edges;
    if n > 1 {
      assert IsWalk(edges, walk[..n]);
      WalkDone(edges, status, walk[..n]);
    }
  }

  /** All proper ancestors of a ready step have succeeded. */
  lemma AncestorsDone(edges: seq<Edge>, status: map<Id, Status>, x: Id)
    requires CausalStatus(edges, status) && Ready(edges, x, status)
    ensures forall a :: a in Ancestors(edges, x) ==> a in status && status[a] == Succeeded
  {
    forall a | a in Ancestors(edges, x) ensures a in status && status[a] == Succeeded {
      var walk :| |walk| > 1 && IsWalk(edges, walk) && walk[0] == a && walk[|walk| - 1] == x;
      WalkDone(edges, status, walk);
    }
  }

  /** The inputs of every row added so far are what its template resolves to now. */
  ghost predicate InputsStand(job: Job, pass: Pass) {
    && CausalStatus(job.def.edges, pass.status)
    && (forall y :: y in pass.status && pass.status[y] == Succeeded ==> y in pass.outputs)
    && (forall r :: r in pass.created ==>
          var x := pass.created[r].step;
          && x in pass.status && x in Ids(job.def.steps)
          && FrozenInputs(Find(job.def.steps, x), pass.outputs, job.params) == Ok(pass.created[r].inputs))
  }

  lemma AddInputsStand(job: Job, pass: Pass, x: Id, id: nat, row: Row)
    requires RefsToAncestors(job.def) && InputsStand(job, pass)
    requires x !in pass.status && x in Ids(job.def.steps) && Ready(job.def.edges, x, pass.status)
    requires row.step == x
    requires FrozenInputs(Find(job.def.steps, x), pass.outputs, job.params) == Ok(row.inputs)
    ensures InputsStand(job, Add(pass, x, id, row))
  {
    var pass' := Add(pass, x, id, row);
    forall y | y in Ids(job.def.steps) && Ready(job.def.edges, y, pass.status)
      ensures FrozenInputs(Find(job.def.steps, y), pass'.outputs, job.params)
           == FrozenInputs(Find(job.def.steps, y), pass.outputs, job.params)
    {
      AncestorsDone(job.def.edges, pass.status, y);
      FrozenReadsOnlyRefs(Find(job.def.steps, y), pass'.outputs, pass.outputs, job.params,
                          Ancestors(job.def.edges, y));
    }
    AddCausal(job.def.edges, pass.status, x, row.status);
  }

  lemma AddCausal(edges: seq<Edge>, status: map<Id, Status>, x: Id, new_: Status)
    requires CausalStatus(edges, status) && Ready(edges, x, status) && x !in status
    ensures CausalStatus(edges, status[x := new_])
  {
  }

  lemma {:induction false} PassInputsStand(accepts: Registry, job: Job, reuse: map<Id, Fields>,
                                           start: Pass, order: seq<Id>)
    requires job.HasIds() && RefsToAncestors(job.def) && InputsStand(job, start)
    ensures var v := RunPass(accepts, job, reuse, start, order);
            !v.Raise? ==> InputsStand(job, v.pass)
  {
    if order != [] {
      var n := |order| - 1;
      PassInputsStand(accepts, job, reuse, start, order[..n]);
      var v := RunPass(accepts, job, reuse, start, order[..n]);
      if v.Continue? {
        hide InputsStand, RefsToAncestors, Ready;
        VisitInputsStand(accepts, job, reuse, v.pass, order[n]);
      }
    }
  }

  lemma VisitInputsStand(accepts: Registry, job: Job, reuse: map<Id, Fields>, pass: Pass, x: Id)
    requires job.HasIds() && RefsToAncestors(job.def) && InputsStand(job, pass)
    ensures var v := Visit(accepts, job, reuse, pass, x); !v.Raise? ==> InputsStand(job, v.pass)
  {
    hide InputsStand, RefsToAncestors;
    var v := Visit(accepts, job, reuse, pass, x);
    if v.Continue? && x !in pass.status && Ready(job.def.edges, x, pass.status) {
      var d := Find(job.def.steps, x);
      var inputs := FrozenInputs(d, pass.outputs, job.params).value;
      var row := if x in reuse then NewRow(job, d, Succeeded, inputs, reuse[x])
                 else NewRow(job, d, Pending, inputs, map[]);
      AddInputsStand(job, pass, x, job.ids[x], row);
    }
  }

  // ---- The same, as an invariant of the shared table ----

  ghost predicate DoneValue(rows: map<nat, Row>, p: nat, a: Id, value: Fields) {
    exists r: nat :: DoneRow(rows, r, p, a) && rows[r].outputs == value
  }

  /** `outs` records the outputs of every proper ancestor of `x` in run `p`. */
  ghost predicate Fits(rows: map<nat, Row>, p: nat, edges: seq<Edge>, x: Id, outs: map<Id, Fields>) {
    forall a :: a in Ancestors(edges, x) ==> a in outs && DoneValue(rows, p, a, outs[a])
  }

  /** The frozen inputs are what the template resolves to from the ancestors' outputs. */
  ghost predicate InputsExplained(rows: map<nat, Row>, p: nat, parent: Parent, x: Id, inputs: Fields)
    requires parent.def.Some? && x in Ids(parent.def.value.steps)
  {
    var def := parent.def.value;
    RefsToAncestors(def) ==>
      forall outs :: Fits(rows, p, def.edges, x, outs) ==>
        FrozenInputs(Find(def.steps, x), outs, parent.params) == Ok(inputs)
  }

  ghost predicate RowExplained(s: State, r: nat)
    requires r in s.rows
  {
    var row := s.rows[r];
    && RowTyped(s.parents, r, row)
    && InputsExplained(s.rows, row.parent, s.parents[row.parent], row.step, row.inputs)
  }

  ghost predicate LocksCausal(s: State) {
    forall p :: p in s.locks && p in s.parents && s.parents[p].def.Some? ==>
      CausalStatus(s.parents[p].def.value.edges, s.locks[p].status)
  }

  ghost predicate Explained(s: State) {
    LocksCausal(s) && forall r :: r in s.rows ==> RowExplained(s, r)
  }

  lemma {:induction false} WalkChildren(s: State, p: nat, walk: seq<Id>)
    requires Typed(s) && Causal(s) && p in s.parents && s.parents[p].def.Some?
    requires |walk| > 1 && IsWalk(s.parents[p].def.value.edges, walk)
    requires PredsDone(s.rows, s.parents[p].def.value.edges, p, walk[|walk| - 1])
    ensures DoneChild(s.rows, p, walk[0])
    decreases |walk|
  {
    var n := |walk| - 1;
    var edges := s.parents[p].def.value.edges;
    assert Edge(walk[n - 1], walk[n]) in edges;
    if n > 1 {
      var r: nat :| DoneRow(s.rows, r, p, walk[n - 1]);
      assert RowTyped(s.parents, r, s.rows[r]);
      assert IsWalk(edges, walk[..n]);
      WalkChildren(s, p, walk[..n]);
    }
  }

  lemma AncestorChildren(s: State, p: nat, x: Id)
    requires Typed(s) && Causal(s) && p in s.parents && s.parents[p].def.Some?
    requires PredsDone(s.rows, s.parents[p].def.value.edges, p, x)
    ensures forall a :: a in Ancestors(s.parents[p].def.value.edges, x) ==> DoneChild(s.rows, p, a)
  {
    var edges := s.parents[p].def.value.edges;
    forall a | a in Ancestors(edges, x) ensures DoneChild(s.rows, p, a) {
      var walk :| |walk| > 1 && IsWalk(edges, walk) && walk[0] == a && walk[|walk| - 1] == x;
      WalkChildren(s, p, walk);
    }
  }

  lemma DoneValueUnique(rows: map<nat, Row>, p: nat, a: Id, v: Fields, v': Fields)
    requires Unique(rows) && DoneValue(rows, p, a, v) && DoneValue(rows, p, a, v')
    ensures v == v'
  {
    var r: nat :| DoneRow(rows, r, p, a) && rows[r].outputs == v;
    var r': nat :| DoneRow(rows, r', p, a) && rows[r'].outputs == v';
    assert SameSlot(rows[r], rows[r']);
  }

  lemma DoneValueStays(rows: map<nat, Row>, rows': map<nat, Row>, p: nat, a: Id)
    requires RowsGrow(rows, rows') && DoneChild(rows, p, a)
    ensures exists v :: DoneValue(rows, p, a, v) && DoneValue(rows', p, a, v)
  {
    var r: nat :| DoneRow(rows, r, p, a);
    assert RowKept(rows[r], rows'[r]);
    assert DoneRow(rows', r, p, a);
    assert DoneValue(rows, p, a, rows[r].outputs) && DoneValue(rows', p, a, rows[r].outputs);
  }

  lemma FitsBackwards(rows: map<nat, Row>, rows': map<nat, Row>, p: nat, edges: seq<Edge>, x: Id,
                      outs: map<Id, Fields>)
    requires RowsGrow(rows, rows') && Unique(rows') && Fits(rows', p, edges, x, outs)
    requires forall a :: a in Ancestors(edges, x) ==> DoneChild(rows, p, a)
    ensures Fits(rows, p, edges, x, outs)
  {
    hide Unique, RowsGrow, Ancestors;
    forall a | a in Ancestors(edges, x) ensures a in outs && DoneValue(rows, p, a, outs[a]) {
      DoneValueStays(rows, rows', p, a);
      var v :| DoneValue(rows, p, a, v) && DoneValue(rows', p, a, v);
      DoneValueUnique(rows', p, a, v, outs[a]);
    }
  }

  lemma ExplanationStays(s: State, s': State, r: nat)
    requires Typed(s) && Causal(s) && Grows(s, s') && Unique(s'.rows)
    requires r in s.rows && RowExplained(s, r)
    ensures r in s'.rows && RowExplained(s', r)
  {
    var row := s.rows[r];
    var p, x, def := row.parent, row.step, s.parents[row.parent].def.value;
    OldRowStays(s, s', r);
    AncestorChildren(s, p, x);
    if RefsToAncestors(def) {
      hide Unique, Ancestors, Fits, RefsToAncestors, Typed, Causal;
      forall outs | Fits(s'.rows, p, def.edges, x, outs)
        ensures FrozenInputs(Find(def.steps, x), outs, s.parents[p].params) == Ok(row.inputs)
      {
        FitsBackwards(s.rows, s'.rows, p, def.edges, x, outs);
      }
    }
  }

  /** The dictionary of the pass records the outputs of the rows in the table. */
  lemma PassOutputIsRow(s: State, p: nat, pass: Pass, job: Job, a: Id)
    requires job.HasIds() && RowsAdded(s, p, pass, job)
    requires a in pass.status && pass.status[a] == Succeeded
    ensures a in pass.outputs && DoneValue(s.rows + pass.created, p, a, pass.outputs[a])
  {
    var rows' := s.rows + pass.created;
    AddedGrow(s, p, pass, job);
    if a in s.locks[p].status {
      assert HasChild(s.rows, p, a);
      var r: nat :| IsChild(s.rows, r, p) && s.rows[r].step == a;
      assert s.rows[r].step in s.locks[p].outputs;
      assert DoneRow(rows', r, p, a);
    } else {
      assert IsNewChild(job, pass, a);
      assert DoneRow(rows', job.ids[a], p, a);
    }
  }

  lemma AddedExplained(s: State, p: nat, pass: Pass, job: Job, r: nat)
    requires job.HasIds() && RowsAdded(s, p, pass, job) && r in pass.created
    requires job.params == s.parents[p].params && RefsToAncestors(job.def)
    requires InputsStand(job, pass) && Unique(s.rows + pass.created)
    ensures var row := pass.created[r];
            row.step in Ids(job.def.steps) &&
            InputsExplained(s.rows + pass.created, p, s.parents[p], row.step, row.inputs)
  {
    NewRowFacts(s, p, pass, job, r);
    var row, x, rows' := pass.created[r], pass.created[r].step, s.rows + pass.created;
    AncestorsDone(job.def.edges, pass.status, x);
    forall outs | Fits(rows', p, job.def.edges, x, outs)
      ensures FrozenInputs(Find(job.def.steps, x), outs, job.params) == Ok(row.inputs)
    {
      forall a | a in Ancestors(job.def.edges, x)
        ensures a in outs && a in pass.outputs && outs[a] == pass.outputs[a]
      {
        hide RowsAdded, Ancestors, InputsStand, Unique;
        PassOutputIsRow(s, p, pass, job, a);
        DoneValueUnique(rows', p, a, outs[a], pass.outputs[a]);
      }
      hide RowsAdded, Ancestors, Unique, Fits;
      FrozenReadsOnlyRefs(Find(job.def.steps, x), outs, pass.outputs, job.params,
                          Ancestors(job.def.edges, x));
    }
  }
}

/**
 * Of all that the transition system allows, what the code would do: its sort is a function of the
 * definition, steps compute what they compute, and an advance copies whatever it can. What is
 * claimed to be possible is shown with such events only.
 */
module EngineCode {
  import opened Prelude
  import opened Graphs
  import opened Refs
  import opened Workflow
  import opened Engine
  import opened EngineSafety
  import opened EngineRuns
  import opened EngineInputs

  // ---- The code's own events ----

  datatype Code = Code(world: World, sort: Definition -> Option<seq<Id>>) {
    function Accepts(): Registry {
      world.accepts
    }
  }

  ghost predicate Sorts(code: Code) {
    forall def :: SortAnswer(def, code.sort(def))
  }

  /** Nothing crashes, and no advance comes from outside. */
  predicate Undisturbed(e: Event) {
    !e.Abort? && !e.LoseAdvance? && !e.Kick?
  }

  /** The advance uses the code's sort and copies exactly the runs that the table holds. */
  ghost predicate CodedCommit(code: Code, s: State, p: nat, order: Option<seq<Id>>, ids: map<Id, nat>,
                              reuse: map<Id, Fields>)
  {
    && p in s.parents && p in s.locks
    && (s.parents[p].def.Some? ==>
          order == code.sort(s.parents[p].def.value) && JobOf(p, s.parents[p], ids).HasIds())
    && var outcome := Decide(code.Accepts(), p, s.parents[p], s.locks[p], order, ids, reuse);
       (outcome.Fail? || outcome.Keep? || outcome.Complete? ==> ReuseExact(s.rows, outcome.pass.created))
  }

  ghost predicate IsReview(s: State, r: nat) {
    r in s.rows && s.rows[r].stype == HUMAN_REVIEW
  }

  /** A review always parks at its gate, and no other step does. */
  ghost predicate AsCoded(code: Code, s: State, e: Event) {
    && Undisturbed(e) && Faithful(code.world, s, e)
    && (e.Commit? ==> CodedCommit(code, s, e.p, e.order, e.ids, e.reuse))
    && (e.Finish? ==> !IsReview(s, e.r)) && (e.Park? ==> IsReview(s, e.r))
  }

  lemma CodedIs(code: Code, s: State, e: Event)
    requires AsCoded(code, s, e)
    ensures Undisturbed(e) && Faithful(code.world, s, e)
  {
    hide Faithful, CodedCommit;
  }

  /** `evs` leads from `s` to `s'` by undisturbed events that the code has. */
  ghost predicate CodeRun(code: Code, s: State, evs: seq<Event>, s': State)
    decreases |evs|
  {
    if evs == [] then s == s'
    else
      var n := |evs| - 1;
      exists m :: CodeRun(code, s, evs[..n], m) && Step(code.Accepts(), m, evs[n], s') && AsCoded(code, m, evs[n])
  }

  lemma CodeNothing(code: Code, s: State)
    ensures CodeRun(code, s, [], s)
    ensures forall s' :: CodeRun(code, s, [], s') ==> s == s'
  {
  }

  lemma CodeSnoc(code: Code, s: State, evs: seq<Event>, m: State, e: Event, s': State)
    requires CodeRun(code, s, evs, m) && Step(code.Accepts(), m, e, s') && AsCoded(code, m, e)
    ensures CodeRun(code, s, evs + [e], s')
  {
    hide Step, AsCoded;
    assert (evs + [e])[..|evs|] == evs;
  }

  lemma CodeOne(code: Code, s: State, e: Event, s': State)
    requires Step(code.Accepts(), s, e, s') && AsCoded(code, s, e)
    ensures CodeRun(code, s, [e], s')
  {
    CodeNothing(code, s);
    hide Step, AsCoded, CodeRun;
    CodeSnoc(code, s, [], s, e, s');
    assert [] + [e] == [e];
  }

  lemma CodeSplit(code: Code, s: State, evs: seq<Event>, s': State) returns (m: State)
    requires CodeRun(code, s, evs, s') && evs != []
    ensures CodeRun(code, s, evs[..|evs| - 1], m)
    ensures Step(code.Accepts(), m, evs[|evs| - 1], s') && AsCoded(code, m, evs[|evs| - 1])
  {
    hide Step, AsCoded;
    var n := |evs| - 1;
    m :| CodeRun(code, s, evs[..n], m) && Step(code.Accepts(), m, evs[n], s') && AsCoded(code, m, evs[n]);
  }

  lemma {:induction false} CodeAppend(code: Code, s: State, evs: seq<Event>, m: State, more: seq<Event>, s': State)
    requires CodeRun(code, s, evs, m) && CodeRun(code, m, more, s')
    ensures CodeRun(code, s, evs + more, s')
    decreases |more|
  {
    hide Step, AsCoded, CodeRun;
    if more == [] {
      CodeNothing(code, m);
      assert evs + more == evs;
    } else {
      var n := |more| - 1;
      var k := CodeSplit(code, m, more, s');
      CodeAppend(code, s, evs, m, more[..n], k);
      CodeSnoc(code, s, evs + more[..n], k, more[n], s');
      assert evs + more[..n] + [more[n]] == evs + more;
    }
  }

  lemma CodeTwo(code: Code, s: State, e: Event, m: State, e': Event, s': State)
    requires Step(code.Accepts(), s, e, m) && AsCoded(code, s, e)
    requires Step(code.Accepts(), m, e', s') && AsCoded(code, m, e')
    ensures CodeRun(code, s, [e, e'], s')
  {
    hide Step, AsCoded, CodeRun;
    CodeOne(code, s, e, m);
    CodeSnoc(code, s, [e], m, e', s');
    assert [e] + [e'] == [e, e'];
  }

  /** The code's runs are faithful runs of the transition system, from any state. */
  lemma {:induction false} CodeIsFaithful(code: Code, s: State, evs: seq<Event>, s': State)
    requires CodeRun(code, s, evs, s')
    ensures FaithfulRun(code.world, s, evs, s')
    decreases |evs|
  {
    hide Step, CodeRun, FaithfulRun, AsCoded, Faithful;
    if evs == [] {
      CodeNothing(code, s);
      FaithfulNothing(code.world, s);
    } else {
      var n := |evs| - 1;
      var m := CodeSplit(code, s, evs, s');
      CodedIs(code, m, evs[n]);
      CodeIsFaithful(code, s, evs[..n], m);
      FaithfulSnoc(code.world, s, evs[..n], m, evs[n], s');
      assert evs[..n] + [evs[n]] == evs;
    }
  }

  lemma FaithfulNothing(w: World, s: State)
    ensures FaithfulRun(w, s, [], s)
  {
  }

  // ---- An advance can always copy whatever there is to copy ----

  lemma ExactIsFound(rows: map<nat, Row>, created: map<nat, Row>)
    requires ReuseExact(rows, created)
    ensures ReuseFound(rows, created)
  {
  }

  /** What to offer for one step, so that it is copied exactly if there is a run to copy. */
  lemma OfferOne(accepts: Registry, job: Job, pass: Pass, x: Id, rows: map<nat, Row>) returns (offer: map<Id, Fields>)
    requires job.HasIds() && ReuseExact(rows, pass.created)
    ensures offer.Keys <= {x}
    ensures var v := Visit(accepts, job, offer, pass, x); !v.Raise? ==> ReuseExact(rows, v.pass.created)
  {
    offer := map[];
    if x in Ids(job.def.steps) && FrozenInputs(Find(job.def.steps, x), pass.outputs, job.params).Ok? {
      var d := Find(job.def.steps, x);
      var inputs := FrozenInputs(d, pass.outputs, job.params).value;
      var key := KeyOf(d.stype, d.config, inputs, job.ids[x]);
      hide FrozenInputs, Ready, KeyOf, ReuseExact;
      if r :| r in rows && IsPrior(rows[r], d.stype, key) {
        offer := map[x := rows[r].outputs];
        ExactAdd(rows, pass.created, job.ids[x], NewRow(job, d, Succeeded, inputs, rows[r].outputs));
      } else {
        ExactAdd(rows, pass.created, job.ids[x], NewRow(job, d, Pending, inputs, map[]));
      }
    } else {
      hide FrozenInputs, Ready, KeyOf, ReuseExact;
    }
  }

  lemma ExactAdd(rows: map<nat, Row>, created: map<nat, Row>, id: nat, row: Row)
    requires ReuseExact(rows, created)
    requires row.status == Succeeded ==>
      exists r :: r in rows && IsPrior(rows[r], row.stype, row.key) && rows[r].outputs == row.outputs
    requires row.status == Pending ==> forall r :: r in rows ==> !IsPrior(rows[r], row.stype, row.key)
    ensures ReuseExact(rows, created[id := row])
  {
  }

  /** Reuse that makes the whole pass exact, chosen step by step. */
  lemma {:induction false} CopyAll(accepts: Registry, job: Job, start: Pass, order: seq<Id>, rows: map<nat, Row>)
    returns (reuse: map<Id, Fields>)
    requires job.HasIds() && NoDup(order) && ReuseExact(rows, start.created)
    ensures var v := RunPass(accepts, job, reuse, start, order); !v.Raise? ==> ReuseExact(rows, v.pass.created)
  {
    if order == [] {
      reuse := map[];
    } else {
      var n := |order| - 1;
      var front, x := order[..n], order[n];
      var before := CopyAll(accepts, job, start, front, rows);
      var v := RunPass(accepts, job, before, start, front);
      if v.Continue? {
        var offer := OfferOne(accepts, job, v.pass, x, rows);
        reuse := before - {x} + offer;
        OfferLast(accepts, job, before, reuse, offer, start, order);
      } else {
        reuse := before;
      }
    }
  }

  lemma OfferLast(accepts: Registry, job: Job, before: map<Id, Fields>, reuse: map<Id, Fields>,
                  offer: map<Id, Fields>, start: Pass, order: seq<Id>)
    requires job.HasIds() && NoDup(order) && order != [] && offer.Keys <= {order[|order| - 1]}
    requires reuse == before - {order[|order| - 1]} + offer
    requires RunPass(accepts, job, before, start, order[..|order| - 1]).Continue?
    ensures RunPass(accepts, job, reuse, start, order)
      == Visit(accepts, job, offer, RunPass(accepts, job, before, start, order[..|order| - 1]).pass, order[|order| - 1])
  {
    var n := |order| - 1;
    assert order[n] !in order[..n];
    ReuseIsLocal(accepts, job, before, reuse, start, order[..n]);
    hide FrozenInputs, Ready;
  }

  // ---- The dry run of an advance ----

  /** Where an advance stands that copies whatever it can, without the rows it would add. */
  datatype Dry = Going(status: map<Id, Status>, outputs: map<Id, Fields>) | Failing | Raising

  /** Row `r` can be copied for a step with these inputs; a review's never can. */
  ghost predicate Copyable(rows: map<nat, Row>, r: nat, d: StepDef, inputs: Fields) {
    r in rows && d.stype != HUMAN_REVIEW && IsPrior(rows[r], d.stype, KeyOf(d.stype, d.config, inputs, 0))
  }

  ghost function Copied(rows: map<nat, Row>, d: StepDef, inputs: Fields): (found: Option<Fields>)
    ensures found.Some? <==> exists r: nat :: Copyable(rows, r, d, inputs)
    ensures found.Some? ==> exists r: nat :: Copyable(rows, r, d, inputs) && rows[r].outputs == found.value
  {
    if r: nat :| Copyable(rows, r, d, inputs) then Some(rows[r].outputs) else None
  }

  ghost function DryVisit(accepts: Registry, def: Definition, params: Fields, rows: map<nat, Row>,
                          dry: Dry, x: Id): Dry
    requires dry.Going?
  {
    if x in dry.status || !Ready(def.edges, x, dry.status) then dry
    else if x !in Ids(def.steps) then Raising
    else
      var d := Find(def.steps, x);
      if !accepts(d.stype, d.config) then Failing
      else
        match FrozenInputs(d, dry.outputs, params)
        case Err => Failing
        case Ok(inputs) =>
          match Copied(rows, d, inputs)
          case Some(outputs) => Going(dry.status[x := Succeeded], dry.outputs[x := outputs])
          case None => Going(dry.status[x := Pending], dry.outputs)
  }

  ghost function DryRun(accepts: Registry, def: Definition, params: Fields, rows: map<nat, Row>,
                        snap: Snapshot, order: seq<Id>): Dry
  {
    if order == [] then Going(snap.status, snap.outputs)
    else
      var n := |order| - 1;
      var dry := DryRun(accepts, def, params, rows, snap, order[..n]);
      if dry.Going? then DryVisit(accepts, def, params, rows, dry, order[n]) else dry
  }

  ghost predicate Shows(dry: Dry, v: Verdict) {
    match v
    case Continue(pass) => dry == Going(pass.status, pass.outputs)
    case FailParent(_) => dry == Failing
    case Raise => dry == Raising
  }

  /** In a table whose rows hold what their steps compute, all runs that can be copied agree. */
  lemma CopiesAgree(w: World, s: State, d: StepDef, inputs: Fields, r: nat, r': nat)
    requires ReadsSettings(w) && Typed(s) && Transparent(w, s.rows)
    requires Copyable(s.rows, r, d, inputs) && Copyable(s.rows, r', d, inputs)
    ensures s.rows[r].outputs == s.rows[r'].outputs
  {
    assert RowTyped(s.parents, r, s.rows[r]) && RowTyped(s.parents, r', s.rows[r']);
    var a, b := s.rows[r], s.rows[r'];
    KeysEqualIff(a.stype, a.config, a.inputs, r, b.stype, b.config, b.inputs, r');
    hide SameSettings, Effective;
  }

  /** A new row is a copy exactly if the dry run copies, and then with the same outputs. */
  lemma NewRowIsDry(w: World, s: State, d: StepDef, inputs: Fields, id: nat, row: Row)
    requires ReadsSettings(w) && Typed(s) && Transparent(w, s.rows) && id !in s.rows
    requires row.stype == d.stype && row.config == d.config && row.inputs == inputs
    requires row.key == KeyOf(d.stype, d.config, inputs, id)
    requires row.status == Pending || row.status == Succeeded
    requires ReuseExact(s.rows, map[id := row])
    ensures match Copied(s.rows, d, inputs)
      case Some(outputs) => row.status == Succeeded && row.outputs == outputs
      case None => row.status == Pending
  {
    if row.status == Succeeded {
      CopyIsDry(w, s, d, inputs, id, row);
    } else {
      hide ReadsSettings, Typed, Transparent;
      PendingIsDry(s, d, inputs, id, row);
    }
  }

  lemma CopyIsDry(w: World, s: State, d: StepDef, inputs: Fields, id: nat, row: Row)
    requires ReadsSettings(w) && Typed(s) && Transparent(w, s.rows) && id !in s.rows && row.status == Succeeded
    requires row.stype == d.stype && row.config == d.config && row.inputs == inputs
    requires row.key == KeyOf(d.stype, d.config, inputs, id) && ReuseExact(s.rows, map[id := row])
    ensures Copied(s.rows, d, inputs) == Some(row.outputs)
  {
    var created := map[id := row];
    assert id in created && created[id] == row;
    var r :| r in s.rows && IsPrior(s.rows[r], row.stype, row.key) && s.rows[r].outputs == row.outputs;
    EqualKeysEqualValues(w, s, r, id, row);
    hide ReadsSettings, Typed, Transparent, ReuseExact;
    assert Copyable(s.rows, r, d, inputs);
    var r': nat :| Copyable(s.rows, r', d, inputs) && s.rows[r'].outputs == Copied(s.rows, d, inputs).value;
    CopiesAgree(w, s, d, inputs, r, r');
  }

  lemma PendingIsDry(s: State, d: StepDef, inputs: Fields, id: nat, row: Row)
    requires row.stype == d.stype && row.config == d.config && row.inputs == inputs && row.status == Pending
    requires row.key == KeyOf(d.stype, d.config, inputs, id) && ReuseExact(s.rows, map[id := row])
    ensures Copied(s.rows, d, inputs) == None
  {
    var created := map[id := row];
    assert id in created && created[id] == row;
    forall r: nat ensures !Copyable(s.rows, r, d, inputs) {}
  }

  lemma VisitIsDry(w: World, s: State, job: Job, reuse: map<Id, Fields>, pass: Pass, x: Id)
    requires ReadsSettings(w) && Typed(s) && Transparent(w, s.rows)
    requires job.HasIds() && forall y :: y in job.ids ==> job.ids[y] !in s.rows
    requires var v := Visit(w.accepts, job, reuse, pass, x); !v.Raise? ==> ReuseExact(s.rows, v.pass.created)
    ensures Shows(DryVisit(w.accepts, job.def, job.params, s.rows, Going(pass.status, pass.outputs), x),
                  Visit(w.accepts, job, reuse, pass, x))
  {
    var v := Visit(w.accepts, job, reuse, pass, x);
    if v.Continue? && x !in pass.status && Ready(job.def.edges, x, pass.status) {
      var d := Find(job.def.steps, x);
      var inputs := FrozenInputs(d, pass.outputs, job.params).value;
      var row := if x in reuse then NewRow(job, d, Succeeded, inputs, reuse[x])
                 else NewRow(job, d, Pending, inputs, map[]);
      hide FrozenInputs, Ready, Typed, Transparent, ReadsSettings, KeyOf;
      assert v == Continue(Add(pass, x, job.ids[x], row));
      OnlyNew(s.rows, v.pass.created, job.ids[x]);
      NewRowIsDry(w, s, d, inputs, job.ids[x], row);
    } else {
      hide FrozenInputs, Ready, Typed, Transparent, ReadsSettings, KeyOf, ReuseExact;
    }
  }

  lemma OnlyNew(rows: map<nat, Row>, created: map<nat, Row>, id: nat)
    requires ReuseExact(rows, created) && id in created
    ensures ReuseExact(rows, map[id := created[id]])
  {
  }

  /** Rows once added stay as they are for the rest of the pass. */
  lemma VisitKeepsRows(accepts: Registry, job: Job, reuse: map<Id, Fields>, snap: Snapshot, pass: Pass, x: Id)
    requires job.HasIds() && Injective(job.ids) && Extends(job, snap, pass)
    ensures var v := Visit(accepts, job, reuse, pass, x);
      !v.Raise? ==> forall c :: c in pass.created ==> c in v.pass.created && v.pass.created[c] == pass.created[c]
  {
    hide FrozenInputs, Ready, IsNewChild, NewRow;
  }

  lemma ExactBefore(rows: map<nat, Row>, before: map<nat, Row>, after: map<nat, Row>)
    requires ReuseExact(rows, after) && forall c :: c in before ==> c in after && after[c] == before[c]
    ensures ReuseExact(rows, before)
  {
  }

  /** A pass that copies exactly what it can ends where its dry run ends. */
  lemma {:induction false} PassIsDry(w: World, s: State, job: Job, reuse: map<Id, Fields>, snap: Snapshot,
                                     order: seq<Id>)
    requires ReadsSettings(w) && Typed(s) && Transparent(w, s.rows) && Coherent(snap)
    requires job.HasIds() && Injective(job.ids) && forall y :: y in job.ids ==> job.ids[y] !in s.rows
    requires var v := RunPass(w.accepts, job, reuse, StartPass(snap), order);
      !v.Raise? && ReuseExact(s.rows, v.pass.created)
    ensures Shows(DryRun(w.accepts, job.def, job.params, s.rows, snap, order),
                  RunPass(w.accepts, job, reuse, StartPass(snap), order))
  {
    hide ReadsSettings, Typed, Transparent, Visit, DryVisit, ReuseExact;
    if order != [] {
      var n := |order| - 1;
      var v := RunPass(w.accepts, job, reuse, StartPass(snap), order[..n]);
      if v.Continue? {
        PassExtends(w.accepts, job, reuse, snap, order[..n]);
        hide Coherent, Injective, Extends;
        VisitKeepsRows(w.accepts, job, reuse, snap, v.pass, order[n]);
        var v' := Visit(w.accepts, job, reuse, v.pass, order[n]);
        ExactBefore(s.rows, v.pass.created, v'.pass.created);
        PassIsDry(w, s, job, reuse, snap, order[..n]);
        VisitIsDry(w, s, job, reuse, v.pass, order[n]);
      } else {
        PassIsDry(w, s, job, reuse, snap, order[..n]);
      }
    }
  }

  // ---- A dry run that only copies is not changed by what else happens ----

  /** The dry run adds nothing that would have to be executed. */
  ghost predicate OnlyCopies(snap: Snapshot, dry: Dry) {
    dry.Going? && forall x :: x in dry.status && x !in snap.status ==> dry.status[x] == Succeeded
  }

  lemma CopiedStays(w: World, s: State, s': State, d: StepDef, inputs: Fields)
    requires ReadsSettings(w) && Typed(s') && Transparent(w, s'.rows) && RowsGrow(s.rows, s'.rows)
    requires Copied(s.rows, d, inputs).Some?
    ensures Copied(s'.rows, d, inputs) == Copied(s.rows, d, inputs)
  {
    hide ReadsSettings, Typed, Transparent;
    var r: nat :| Copyable(s.rows, r, d, inputs) && s.rows[r].outputs == Copied(s.rows, d, inputs).value;
    assert RowKept(s.rows[r], s'.rows[r]);
    assert Copyable(s'.rows, r, d, inputs);
    var r': nat :| Copyable(s'.rows, r', d, inputs) && s'.rows[r'].outputs == Copied(s'.rows, d, inputs).value;
    CopiesAgree(w, s', d, inputs, r, r');
  }

  lemma DryVisitStays(w: World, s: State, s': State, def: Definition, params: Fields, dry: Dry, x: Id)
    requires ReadsSettings(w) && Typed(s') && Transparent(w, s'.rows) && RowsGrow(s.rows, s'.rows)
    requires dry.Going? && DryVisit(w.accepts, def, params, s.rows, dry, x).Going?
    requires var next := DryVisit(w.accepts, def, params, s.rows, dry, x);
      x in next.status && x !in dry.status ==> next.status[x] == Succeeded
    ensures DryVisit(w.accepts, def, params, s'.rows, dry, x) == DryVisit(w.accepts, def, params, s.rows, dry, x)
  {
    if x !in dry.status && Ready(def.edges, x, dry.status) {
      var d := Find(def.steps, x);
      var inputs := FrozenInputs(d, dry.outputs, params).value;
      hide ReadsSettings, Typed, Transparent, RowsGrow, FrozenInputs, Ready;
      CopiedStays(w, s, s', d, inputs);
    }
  }

  /** Visiting keeps what there is. */
  lemma DryVisitKeeps(accepts: Registry, def: Definition, params: Fields, rows: map<nat, Row>, dry: Dry, x: Id)
    requires dry.Going?
    ensures var next := DryVisit(accepts, def, params, rows, dry, x);
      next.Going? ==>
        && (forall y :: y in dry.status ==> y in next.status && next.status[y] == dry.status[y])
        && (forall y :: y in next.status && y !in dry.status ==>
              y == x && y in Ids(def.steps) && (next.status[y] == Pending || next.status[y] == Succeeded))
  {
    hide FrozenInputs, Ready, Copied;
  }

  lemma {:induction false} DryRunKeeps(accepts: Registry, def: Definition, params: Fields, rows: map<nat, Row>,
                                       snap: Snapshot, order: seq<Id>)
    ensures var dry := DryRun(accepts, def, params, rows, snap, order);
      dry.Going? ==>
        && (forall y :: y in snap.status ==> y in dry.status && dry.status[y] == snap.status[y])
        && (forall y :: y in dry.status && y !in snap.status ==>
              y in Ids(def.steps) && (dry.status[y] == Pending || dry.status[y] == Succeeded))
  {
    hide DryVisit;
    if order != [] {
      var n := |order| - 1;
      DryRunKeeps(accepts, def, params, rows, snap, order[..n]);
      var dry := DryRun(accepts, def, params, rows, snap, order[..n]);
      if dry.Going? { DryVisitKeeps(accepts, def, params, rows, dry, order[n]); }
    }
  }

  lemma {:induction false} DryStays(w: World, s: State, s': State, def: Definition, params: Fields, snap: Snapshot,
                                    order: seq<Id>)
    requires ReadsSettings(w) && Typed(s') && Transparent(w, s'.rows) && RowsGrow(s.rows, s'.rows)
    requires OnlyCopies(snap, DryRun(w.accepts, def, params, s.rows, snap, order))
    ensures DryRun(w.accepts, def, params, s'.rows, snap, order) == DryRun(w.accepts, def, params, s.rows, snap, order)
  {
    hide ReadsSettings, Typed, Transparent, RowsGrow, DryVisit;
    if order != [] {
      var n := |order| - 1;
      var dry := DryRun(w.accepts, def, params, s.rows, snap, order[..n]);
      DryVisitKeeps(w.accepts, def, params, s.rows, dry, order[n]);
      DryRunKeeps(w.accepts, def, params, s.rows, snap, order[..n]);
      DryStays(w, s, s', def, params, snap, order[..n]);
      DryVisitStays(w, s, s', def, params, dry, order[n]);
    }
  }

  lemma {:induction false} DryNeverRaises(accepts: Registry, def: Definition, params: Fields, rows: map<nat, Row>,
                                          snap: Snapshot, order: seq<Id>)
    requires forall x :: x in order ==> x in Ids(def.steps)
    ensures !DryRun(accepts, def, params, rows, snap, order).Raising?
  {
    if order != [] {
      DryNeverRaises(accepts, def, params, rows, snap, order[..|order| - 1]);
    }
  }
}

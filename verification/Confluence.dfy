/**
 * Confluence: when steps are functions of their configuration and inputs and gate answers are
 * fixed, every schedule of a run that succeeds produces the outputs of evaluating the steps one
 * by one in topological order.
 */
module Confluence {
  import opened Prelude
  import opened Graphs
  import opened Refs
  import opened Workflow
  import opened Engine
  import opened EngineSafety
  import opened EngineRuns
  import opened EngineInputs

  // ---- Frozen inputs stay explained by ancestors in every reachable state ----

  lemma SettleRows(s: State, p: nat, outcome: Outcome)
    requires p in s.parents
    ensures ParentsGrow(s.parents, Settle(s, p, outcome).parents)
    ensures Settle(s, p, outcome).rows ==
      if outcome.Fail? || outcome.Keep? || outcome.Complete? then s.rows + outcome.pass.created
      else s.rows
    ensures Settle(s, p, outcome).locks == s.locks - {p}
  {
    hide Bells;
  }

  lemma FailRowParents(s: State, r: nat, from: Status, s': State)
    requires FailRowStep(s, r, from, s')
    ensures ParentsGrow(s.parents, s'.parents)
  {
  }

  lemma StepParentsGrow(accepts: Registry, s: State, e: Event, s': State)
    requires Step(accepts, s, e, s')
    ensures ParentsGrow(s.parents, s'.parents)
  {
    hide Decide, ReuseFound, Choices, Settle, FailRowStep, SubmitStep, BeginStep, TrafficStep;
    hide AbortStep, LoseAdvanceStep, KickStep;
    match e
    case Commit(p, order, ids, reuse) =>
      hide Decide;
      CommitParents(accepts, s, p, order, ids, reuse, s');
    case ClaimUnknown(r) => FailRowParents(s, r, Pending, s');
    case FailStep(r) => FailRowParents(s, r, Running, s');
    case Claim(r) =>
    case Finish(_, _) =>
    case Resume(_, _) =>
    case Park(_, _) =>
    case _ => QuietRows(accepts, s, e, s');
  }

  lemma CommitParents(accepts: Registry, s: State, p: nat, order: Option<seq<Id>>,
                      ids: map<Id, nat>, reuse: map<Id, Fields>, s': State)
    requires CommitStep(accepts, s, p, order, ids, reuse, s')
    ensures ParentsGrow(s.parents, s'.parents)
    ensures s'.locks == s.locks - {p}
  {
    hide Decide, ReuseFound, Settle, ParentsGrow;
    SettleRows(s, p, Decide(accepts, p, s.parents[p], s.locks[p], order, ids, reuse));
  }

  lemma ReadIsCausal(s: State, p: nat)
    requires Unique(s.rows) && Typed(s) && Causal(s) && p in s.parents && s.parents[p].def.Some?
    ensures CausalStatus(s.parents[p].def.value.edges, Read(s.rows, p).status)
  {
    var edges, status := s.parents[p].def.value.edges, Read(s.rows, p).status;
    forall x | x in status ensures Ready(edges, x, status) {
      var r := ChildRow(s.rows, p, x);
      assert RowTyped(s.parents, r, s.rows[r]);
      hide Unique, Typed, RowTyped;
      forall e | e in edges && e.dst == x ensures e.src in status && status[e.src] == Succeeded {
        assert DoneChild(s.rows, p, e.src);
        var q: nat :| DoneRow(s.rows, q, p, e.src);
        hide Causal, Read;
        ReadIsExact(s.rows, p, q);
      }
    }
  }

  lemma BeginLocksCausal(s: State, p: nat, s': State)
    requires Safe(s) && LocksCausal(s) && BeginStep(s, p, s')
    ensures LocksCausal(s')
  {
    assert Unique(s.rows) && Typed(s) && Causal(s);
    hide Safe, Read, CausalStatus, Unique, Typed, Causal;
    if s.parents[p].def.Some? {
      ReadIsCausal(s, p);
    }
  }

  lemma StepLocksCausal(accepts: Registry, s: State, e: Event, s': State)
    requires Safe(s) && LocksCausal(s) && Step(accepts, s, e, s')
    ensures LocksCausal(s')
  {
    hide Step, Safe, LocksCausal;
    if e.Begin? {
      assert BeginStep(s, e.p, s') by { OnlyBegin(accepts, s, e, s'); }
      BeginLocksCausal(s, e.p, s');
    } else {
      LocksKept(accepts, s, e, s');
      StepParentsGrow(accepts, s, e, s');
      LocksHaveParents(s);
      ShrunkLocksCausal(s, s');
    }
  }

  lemma OnlyBegin(accepts: Registry, s: State, e: Event, s': State)
    requires Step(accepts, s, e, s') && e.Begin?
    ensures BeginStep(s, e.p, s')
  {
  }

  lemma LocksHaveParents(s: State)
    requires Safe(s)
    ensures forall p :: p in s.locks ==> p in s.parents
  {
  }

  lemma ShrunkLocksCausal(s: State, s': State)
    requires LocksCausal(s) && LocksShrink(s, s') && ParentsGrow(s.parents, s'.parents)
    requires forall p :: p in s.locks ==> p in s.parents
    ensures LocksCausal(s')
  {
    hide CausalStatus;
  }

  lemma LocksKept(accepts: Registry, s: State, e: Event, s': State)
    requires Step(accepts, s, e, s') && !e.Begin?
    ensures LocksShrink(s, s')
  {
    hide Decide, ReuseFound, Choices, Settle, CommitStep;
    if e.Commit? { CommitParents(accepts, s, e.p, e.order, e.ids, e.reuse, s'); }
  }

  lemma CommitExplained(accepts: Registry, s: State, p: nat, order: Option<seq<Id>>,
                        ids: map<Id, nat>, reuse: map<Id, Fields>, s': State, r: nat)
    requires Safe(s) && Explained(s) && Unique(s'.rows)
    requires CommitStep(accepts, s, p, order, ids, reuse, s')
    requires r in s'.rows && r !in s.rows
    requires ParentsGrow(s.parents, s'.parents) && RowTyped(s'.parents, r, s'.rows[r])
    ensures RowExplained(s', r)
  {
    var outcome := Decide(accepts, p, s.parents[p], s.locks[p], order, ids, reuse);
    hide Explained, Unique, RowsAdded, RowTyped, Decide, Settle, Safe, ParentsGrow, ReuseFound;
    SettleRows(s, p, outcome);
    assert r in outcome.pass.created;
    DefinedUnlessRejected(accepts, s.parents[p], p, s.locks[p], order, ids, reuse);
    var job := OutcomeAdds(accepts, s, p, order, ids, reuse);
    LockedIsPending(s, p);
    hide Choices, SnapshotSound;
    NewRowExplained(accepts, s, p, order.value, reuse, job, outcome, s', r);
  }

  lemma NewRowExplained(accepts: Registry, s: State, p: nat, order: seq<Id>, reuse: map<Id, Fields>,
                        job: Job, outcome: Outcome, s': State, r: nat)
    requires Explained(s) && Unique(s'.rows) && p in s.parents && s.parents[p].def.Some?
    requires p in s.locks && Coherent(s.locks[p])
    requires job == JobOf(p, s.parents[p], job.ids) && job.HasIds()
    requires outcome == Decide(accepts, p, s.parents[p], s.locks[p], Some(order), job.ids, reuse)
    requires (outcome.Fail? || outcome.Keep? || outcome.Complete?) && r in outcome.pass.created
    requires RowsAdded(s, p, outcome.pass, job) && s'.rows == s.rows + outcome.pass.created
    requires ParentsGrow(s.parents, s'.parents) && RowTyped(s'.parents, r, s'.rows[r])
    ensures RowExplained(s', r)
  {
    hide RunPass, InputsStand, Explained, Unique, RowsAdded, Coherent, Decide, RefsToAncestors;
    NewRowFacts(s, p, outcome.pass, job, r);
    if RefsToAncestors(job.def) {
      CommitInputsStand(accepts, s, p, order, reuse, job, outcome);
      AddedExplained(s, p, outcome.pass, job, r);
    }
  }

  lemma CommitInputsStand(accepts: Registry, s: State, p: nat, order: seq<Id>,
                          reuse: map<Id, Fields>, job: Job, outcome: Outcome)
    requires Explained(s) && p in s.parents && s.parents[p].def.Some?
    requires p in s.locks && Coherent(s.locks[p])
    requires job == JobOf(p, s.parents[p], job.ids) && job.HasIds() && RefsToAncestors(job.def)
    requires outcome == Decide(accepts, p, s.parents[p], s.locks[p], Some(order), job.ids, reuse)
    requires outcome.Fail? || outcome.Keep? || outcome.Complete?
    ensures InputsStand(job, outcome.pass)
  {
    StartStands(s, p, job);
    hide RunPass, InputsStand, Explained, RefsToAncestors;
    PassInputsStand(accepts, job, reuse, StartPass(s.locks[p]), order);
  }

  lemma StartStands(s: State, p: nat, job: Job)
    requires Explained(s) && p in s.locks && p in s.parents && s.parents[p].def.Some?
    requires job.def == s.parents[p].def.value && Coherent(s.locks[p])
    ensures InputsStand(job, StartPass(s.locks[p]))
  {
  }

  lemma StepExplained(accepts: Registry, s: State, e: Event, s': State)
    requires Safe(s) && Explained(s) && Step(accepts, s, e, s')
    ensures Explained(s')
  {
    assert Unique(s.rows) && Typed(s) && Causal(s);
    StepSafe(accepts, s, e, s');
    assert Unique(s'.rows) && Typed(s');
    StepEvolves(accepts, s, e, s');
    StepParentsGrow(accepts, s, e, s');
    StepLocksCausal(accepts, s, e, s');
    hide Safe, Unique, Typed, Causal, RowExplained, LocksCausal, ParentsGrow, RowTyped;
    forall r | r in s'.rows ensures RowExplained(s', r) {
      if r in s.rows {
        hide Step;
        EvolvesGrows(s.rows, s'.rows);
        ExplanationStays(s, s', r);
      } else {
        OnlyCommitAdds(accepts, s, e, s', r);
        RowIsTyped(s', r);
        CommitExplained(accepts, s, e.p, e.order, e.ids, e.reuse, s', r);
      }
    }
  }

  lemma RowIsTyped(s: State, r: nat)
    requires Typed(s) && r in s.rows
    ensures RowTyped(s.parents, r, s.rows[r])
  {
  }

  lemma OnlyCommitAdds(accepts: Registry, s: State, e: Event, s': State, r: nat)
    requires Step(accepts, s, e, s') && r in s'.rows && r !in s.rows
    ensures e.Commit? && CommitStep(accepts, s, e.p, e.order, e.ids, e.reuse, s')
  {
    hide Read, CommitStep;
  }

  lemma {:induction false} RunExplained(accepts: Registry, evs: seq<Event>, s: State)
    requires Run(accepts, Init(), evs, s)
    ensures Explained(s)
    decreases |evs|
  {
    if evs != [] {
      var n := |evs| - 1;
      var m :| Run(accepts, Init(), evs[..n], m) && Step(accepts, m, evs[n], s);
      RunSafe(accepts, Init(), evs[..n], m);
      RunExplained(accepts, evs[..n], m);
      StepExplained(accepts, m, evs[n], s);
    }
  }

  // ---- Sequential evaluation ----

  /** Steps evaluated one after the other; a step is skipped if a predecessor or its inputs fail. */
  ghost function Evaluate(w: World, p: nat, def: Definition, params: Fields, order: seq<Id>)
    : map<Id, Fields>
  {
    if order == [] then map[]
    else
      var n := |order| - 1;
      var outs, x := Evaluate(w, p, def, params, order[..n]), order[n];
      if x in Ids(def.steps) && (forall e | e in def.edges :: e.dst == x ==> e.src in outs) then
        var d := Find(def.steps, x);
        match FrozenInputs(d, outs, params)
        case Ok(inputs) => outs[x := StepValue(w, p, x, d.stype, d.config, inputs)]
        case Err => outs
      else outs
  }

  lemma {:induction false} EvaluateOnlyListed(w: World, p: nat, def: Definition, params: Fields,
                                              order: seq<Id>)
    ensures forall x :: x in Evaluate(w, p, def, params, order) ==> x in order
  {
    if order != [] {
      EvaluateOnlyListed(w, p, def, params, order[..|order| - 1]);
    }
  }

  /** The evaluation computed what the table holds, for every step of the list. */
  ghost predicate Matches(rows: map<nat, Row>, p: nat, outs: map<Id, Fields>, listed: seq<Id>) {
    forall x :: x in listed ==> x in outs && DoneValue(rows, p, x, outs[x])
  }

  lemma AncestorsPrecede(def: Definition, order: seq<Id>, i: nat)
    requires IsTopological(Ids(def.steps), def.edges, order) && i < |order|
    ensures forall a :: a in Ancestors(def.edges, order[i]) ==> a in order[..i]
  {
    var ids, x := Ids(def.steps), order[i];
    forall a | a in Ancestors(def.edges, x) ensures a in order[..i] {
      var walk :| |walk| > 1 && IsWalk(def.edges, walk) && walk[0] == a && walk[|walk| - 1] == x;
      WalkBackInside(ids, def.edges, order, walk);
      WalkClimbs(ids, def.edges, order, walk);
      var j, k :| 0 <= j < k < |order| && order[j] == a && order[k] == x;
      assert k == i;
    }
  }

  lemma {:induction false} WalkBackInside(ids: seq<Id>, edges: seq<Edge>, order: seq<Id>, walk: seq<Id>)
    requires IsTopological(ids, edges, order)
    requires |walk| > 1 && IsWalk(edges, walk) && walk[|walk| - 1] in ids
    ensures walk[0] in ids
    decreases |walk|
  {
    var n := |walk| - 1;
    assert Edge(walk[n - 1], walk[n]) in edges;
    assert Precedes(order, walk[n - 1], walk[n]);
    assert walk[n - 1] in ids;
    if n > 1 {
      assert IsWalk(edges, walk[..n]);
      WalkBackInside(ids, edges, order, walk[..n]);
    }
  }

  lemma PredsAreAncestors(edges: seq<Edge>, e: Edge)
    requires e in edges
    ensures e.src in Ancestors(edges, e.dst)
  {
    var walk := [e.src, e.dst];
    assert Edge(walk[0], walk[1]) == e;
    assert |walk| > 1 && IsWalk(edges, walk) && walk[0] == e.src && walk[|walk| - 1] == e.dst;
  }

  /** What is known of a succeeded run, as far as evaluation is concerned. */
  ghost predicate Accounted(w: World, rows: map<nat, Row>, p: nat, def: Definition, params: Fields) {
    forall x :: x in Ids(def.steps) ==> exists inputs ::
      && DoneValue(rows, p, x, StepValue(w, p, x, Find(def.steps, x).stype, Find(def.steps, x).config, inputs))
      && forall outs :: Fits(rows, p, def.edges, x, outs) ==>
           FrozenInputs(Find(def.steps, x), outs, params) == Ok(inputs)
  }

  lemma SucceededIsAccounted(w: World, s: State, p: nat)
    requires Explained(s) && Transparent(w, s.rows) && p in s.parents
    requires AllStepsDone(s.rows, p, s.parents[p]) && RefsToAncestors(s.parents[p].def.value)
    ensures Accounted(w, s.rows, p, s.parents[p].def.value, s.parents[p].params)
  {
    var def, params := s.parents[p].def.value, s.parents[p].params;
    hide RefsToAncestors, Fits, FrozenInputs;
    forall x | x in Ids(def.steps)
      ensures exists inputs ::
        && DoneValue(s.rows, p, x, StepValue(w, p, x, Find(def.steps, x).stype, Find(def.steps, x).config, inputs))
        && forall outs :: Fits(s.rows, p, def.edges, x, outs) ==>
             FrozenInputs(Find(def.steps, x), outs, params) == Ok(inputs)
    {
      assert DoneChild(s.rows, p, x);
      var r: nat :| DoneRow(s.rows, r, p, x);
      assert RowExplained(s, r);
      assert s.rows[r].outputs == RowValue(w, s.rows[r]);
      var inputs := s.rows[r].inputs;
      assert DoneValue(s.rows, p, x, s.rows[r].outputs);
    }
  }

  /** One step of the sequential evaluation agrees with the child row of that step. */
  lemma EvaluateNext(w: World, rows: map<nat, Row>, p: nat, def: Definition, params: Fields,
                     order: seq<Id>, i: nat)
    requires Accounted(w, rows, p, def, params) && i < |order|
    requires IsTopological(Ids(def.steps), def.edges, order)
    requires Matches(rows, p, Evaluate(w, p, def, params, order[..i]), order[..i])
    ensures var outs := Evaluate(w, p, def, params, order[..i + 1]);
            && order[i] in outs && DoneValue(rows, p, order[i], outs[order[i]])
            && forall x :: x != order[i] ==>
                 (x in outs <==> x in Evaluate(w, p, def, params, order[..i]))
                 && (x in outs ==> outs[x] == Evaluate(w, p, def, params, order[..i])[x])
  {
    var x, before := order[i], Evaluate(w, p, def, params, order[..i]);
    assert order[..i + 1][..i] == order[..i];
    AncestorsPrecede(def, order, i);
    assert x in Ids(def.steps);
    var inputs :|
      && DoneValue(rows, p, x, StepValue(w, p, x, Find(def.steps, x).stype, Find(def.steps, x).config, inputs))
      && forall outs :: Fits(rows, p, def.edges, x, outs) ==>
           FrozenInputs(Find(def.steps, x), outs, params) == Ok(inputs);
    hide Accounted, IsTopological, FrozenInputs, StepValue, DoneValue, Ancestors;
    assert Fits(rows, p, def.edges, x, before);
    forall e | e in def.edges && e.dst == x ensures e.src in before {
      PredsAreAncestors(def.edges, e);
    }
  }

  lemma {:induction false} EvaluateMatches(w: World, rows: map<nat, Row>, p: nat, def: Definition,
                                           params: Fields, order: seq<Id>, n: nat)
    requires Accounted(w, rows, p, def, params) && n <= |order|
    requires IsTopological(Ids(def.steps), def.edges, order)
    ensures Matches(rows, p, Evaluate(w, p, def, params, order[..n]), order[..n])
    decreases n
  {
    if n > 0 {
      var i := n - 1;
      EvaluateMatches(w, rows, p, def, params, order, i);
      EvaluateNext(w, rows, p, def, params, order, i);
      FrontOnce(def, order, i);
      hide Accounted, IsTopological, DoneValue, Evaluate;
      MatchesMore(rows, p, Evaluate(w, p, def, params, order[..i]), Evaluate(w, p, def, params, order[..n]),
                  order[..i], order[i]);
    }
  }

  lemma FrontOnce(def: Definition, order: seq<Id>, i: nat)
    requires IsTopological(Ids(def.steps), def.edges, order) && i < |order|
    ensures order[..i + 1] == order[..i] + [order[i]] && order[i] !in order[..i]
  {
  }

  lemma MatchesMore(rows: map<nat, Row>, p: nat, before: map<Id, Fields>, after: map<Id, Fields>,
                    front: seq<Id>, x: Id)
    requires Matches(rows, p, before, front) && x !in front
    requires x in after && DoneValue(rows, p, x, after[x])
    requires forall y :: y != x ==> (y in after <==> y in before) && (y in after ==> after[y] == before[y])
    ensures Matches(rows, p, after, front + [x])
  {
    hide DoneValue;
  }

  /**
   * Confluence: in any state reached by faithful steps under any schedule, with any reuse, any
   * message losses and any crashes, a succeeded run gave each step exactly the outputs of
   * sequential evaluation in any topological order of its definition.
   */
  lemma SucceededRunsAgreeWithEvaluation(w: World, evs: seq<Event>, s: State, p: nat, order: seq<Id>)
    requires ReadsSettings(w) && FaithfulRun(w, Init(), evs, s)
    requires p in s.parents && s.parents[p].status == Succeeded && s.parents[p].def.Some?
    requires var def := s.parents[p].def.value;
             RefsToAncestors(def) && IsTopological(Ids(def.steps), def.edges, order)
    ensures var def := s.parents[p].def.value;
            var outs := Evaluate(w, p, def, s.parents[p].params, order);
            && (forall x :: x in outs <==> x in Ids(def.steps))
            && (forall r: nat :: IsChild(s.rows, r, p) ==>
                  s.rows[r].step in outs && s.rows[r].outputs == outs[s.rows[r].step])
  {
    FaithfulIsRun(w, Init(), evs, s);
    RunSafe(w.accepts, Init(), evs, s);
    RunExplained(w.accepts, evs, s);
    ReuseTransparency(w, evs, s);
    var def, params := s.parents[p].def.value, s.parents[p].params;
    assert AllStepsDone(s.rows, p, s.parents[p]);
    SucceededIsAccounted(w, s, p);
    hide Safe, Explained, Transparent, RefsToAncestors, FaithfulRun, ReadsSettings;
    EvaluateMatches(w, s.rows, p, def, params, order, |order|);
    assert order[..|order|] == order;
    EvaluateOnlyListed(w, p, def, params, order);
    forall r: nat | IsChild(s.rows, r, p)
      ensures var outs := Evaluate(w, p, def, params, order);
              s.rows[r].step in outs && s.rows[r].outputs == outs[s.rows[r].step]
    {
      ChildMatches(s, p, r, Evaluate(w, p, def, params, order), order);
    }
  }

  lemma ChildMatches(s: State, p: nat, r: nat, outs: map<Id, Fields>, order: seq<Id>)
    requires Safe(s) && IsChild(s.rows, r, p) && p in s.parents && s.parents[p].status == Succeeded
    requires s.parents[p].def.Some?
    requires IsTopological(Ids(s.parents[p].def.value.steps), s.parents[p].def.value.edges, order)
    requires Matches(s.rows, p, outs, order)
    ensures s.rows[r].step in outs && s.rows[r].outputs == outs[s.rows[r].step]
  {
    assert RowTyped(s.parents, r, s.rows[r]);
    SucceededHasNoActiveChild(s, r);
    RowsUnique(s);
    hide Safe;
    assert DoneRow(s.rows, r, p, s.rows[r].step);
    assert DoneValue(s.rows, p, s.rows[r].step, s.rows[r].outputs);
    DoneValueUnique(s.rows, p, s.rows[r].step, s.rows[r].outputs, outs[s.rows[r].step]);
  }

  lemma RowsUnique(s: State)
    requires Safe(s)
    ensures Unique(s.rows)
  {
  }
}

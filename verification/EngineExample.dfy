/**
 * Two small workflows, run step by step. The first succeeds, so that what is proved about succeeded
 * runs is not about nothing; the second, whose edges mislead the sort, comes to rest without a verdict.
 */
module EngineExample {
  import opened Prelude
  import opened Graphs
  import opened Refs
  import opened Workflow
  import opened Engine
  import opened EngineSafety
  import opened EngineInputs
  import opened EngineProgress
  import opened EngineTraps
  import opened EngineDangling

  const STEP := StepDef("a", "t", map[], map[])
  const OTHER := StepDef("b", "t", map[], map[])

  /** A workflow with a step "a", and what its two advances choose. */
  datatype Plan = Plan(def: Definition, order: seq<Id>, ids: map<Id, nat>, ids': map<Id, nat>)

  /** One step. */
  const PLAIN := Plan(Definition([STEP], []), ["a"], map["a" := 0], map["a" := 1])

  /** Two steps; one waits for an unknown step, and an unknown step waits for the other. */
  const DANGLED := Plan(Definition([STEP, OTHER], [Edge("x", "b"), Edge("a", "y")]), ["a", "y"],
                        map["a" := 0, "b" := 1], map["a" := 1, "b" := 2])

  function Child(status: Status, outputs: Fields): Row {
    Row(0, "a", "t", status, map[], outputs, map[], KeyOf("t", map[], map[], 0))
  }

  function Parents(plan: Plan, status: Status): map<nat, Parent> {
    map[0 := Parent(Some(plan.def), map[], status)]
  }

  /** The states between the events of the run, up to the commit of its second advance. */
  function StateAt(plan: Plan, i: nat, out: Fields): State
    requires i <= 7
  {
    var none, one := multiset{}, multiset{0 as nat};
    var parents := Parents(plan, Pending);
    if i == 0 then Init()
    else if i == 1 then State(parents, map[], map[], one, none, none)
    else if i == 2 then State(parents, map[], map[0 := Snapshot(map[], map[])], none, none, none)
    else if i == 3 then State(parents, map[0 := Child(Pending, map[])], map[], none, one, none)
    else if i == 4 then State(parents, map[0 := Child(Pending, map[])], map[], none, none, one)
    else if i == 5 then State(parents, map[0 := Child(Running, map[])], map[], none, none, none)
    else if i == 6 then State(parents, map[0 := Child(Succeeded, out)], map[], one, none, none)
    else Reread(plan, out)
  }

  /** The second advance has read the finished child. */
  function Reread(plan: Plan, out: Fields): State {
    var none := multiset{};
    State(Parents(plan, Pending), map[0 := Child(Succeeded, out)], map[0 := Done(out)], none, none, none)
  }

  function Done(out: Fields): Snapshot {
    Snapshot(map["a" := Succeeded], map["a" := out])
  }

  function EventAt(plan: Plan, i: nat, out: Fields): Event
    requires i < 7
  {
    if i == 0 then Submit(0, Some(plan.def), map[])
    else if i == 1 || i == 6 then Begin(0)
    else if i == 2 then Commit(0, Some(plan.order), plan.ids, map[])
    else if i == 3 then Ring(0)
    else if i == 4 then Claim(0)
    else Finish(0, out)
  }

  /** The run after its second advance. */
  function AtRest(plan: Plan, status: Status, out: Fields): State {
    State(Parents(plan, status), map[0 := Child(Succeeded, out)], map[], multiset{}, multiset{}, multiset{})
  }

  /** The pass of the first advance. */
  const CREATED := Pass(map["a" := Pending], map[], map[0 := Child(Pending, map[])])

  // ---- What the two advances decide ----

  /** The choices of both advances are possible ones. */
  ghost predicate Fits(plan: Plan) {
    && SortAnswer(plan.def, Some(plan.order))
    && (forall out :: Choices(StateAt(plan, 2, out), StateAt(plan, 2, out).parents[0], Some(plan.order), plan.ids))
    && (forall out :: Choices(Reread(plan, out), Reread(plan, out).parents[0], Some(plan.order), plan.ids'))
  }

  /** The first advance creates the step "a". */
  ghost predicate Opens(accepts: Registry, plan: Plan) {
    && JobOf(0, Parent(Some(plan.def), map[], Pending), plan.ids).HasIds()
    && RunPass(accepts, JobOf(0, Parent(Some(plan.def), map[], Pending), plan.ids), map[],
               Pass(map[], map[], map[]), plan.order) == Continue(CREATED)
    && plan.def.steps != [] && "a" in Ids(plan.def.steps)
  }

  lemma PlainIds()
    ensures Ids(PLAIN.def.steps) == PLAIN.order && Find(PLAIN.def.steps, "a") == STEP
    ensures IsTopological(PLAIN.order, PLAIN.def.edges, PLAIN.order)
    ensures KahnOrder(PLAIN.order, PLAIN.def.edges, PLAIN.order)
    ensures RefsToAncestors(PLAIN.def)
  {
    assert [STEP][..0] == [];
    assert Ids([STEP]) == Ids([]) + ["a"];
    assert PLAIN.order[..0] == [];
  }

  lemma DangledIds()
    ensures Ids(DANGLED.def.steps) == ["a", "b"] && Find(DANGLED.def.steps, "a") == STEP
  {
    assert [STEP, OTHER][..1] == [STEP] && [STEP][..0] == [];
    assert Ids([STEP]) == Ids([]) + ["a"];
  }

  lemma DangledOrder()
    ensures KahnOrder(["a", "b"], DANGLED.def.edges, DANGLED.order)
  {
    var edges, l := DANGLED.def.edges, DANGLED.order;
    assert edges[0] == Edge("x", "b") && edges[1] == Edge("a", "y");
    assert forall e :: e in edges ==> e == edges[0] || e == edges[1];
    assert l[..1] == ["a"] && l[..0] == [];
    assert edges[1] in edges && IsNode(["a", "b"], edges, "y");
    assert edges[0] in edges && !PredsIn(edges, "b", l);
  }

  lemma PlainFits()
    ensures Fits(PLAIN)
  {
    PlainIds();
    hide Ids, Find, KahnOrder;
  }

  lemma DangledFits()
    ensures Fits(DANGLED)
  {
    DangledIds();
    DangledOrder();
    hide Ids, Find, KahnOrder;
    assert |DANGLED.order| == |["a", "b"]|;
  }

  lemma PlainOpens(accepts: Registry)
    requires accepts("t", map[])
    ensures Opens(accepts, PLAIN)
  {
    PlainIds();
    var job, start := JobOf(0, Parent(Some(PLAIN.def), map[], Pending), PLAIN.ids), Pass(map[], map[], map[]);
    assert PLAIN.order[..0] == [];
    hide Ids, Find;
    assert RunPass(accepts, job, map[], start, []) == Continue(start);
    assert RunPass(accepts, job, map[], start, PLAIN.order) == Visit(accepts, job, map[], start, "a");
  }

  lemma DangledOpens(accepts: Registry)
    requires accepts("t", map[])
    ensures Opens(accepts, DANGLED)
  {
    DangledIds();
    var job, start := JobOf(0, Parent(Some(DANGLED.def), map[], Pending), DANGLED.ids), Pass(map[], map[], map[]);
    var edges := DANGLED.def.edges;
    assert edges[0] == Edge("x", "b") && edges[1] == Edge("a", "y");
    assert edges[1] in edges && !Ready(edges, "y", CREATED.status);
    assert forall e :: e in edges ==> e == edges[0] || e == edges[1];
    assert Ready(edges, "a", start.status);
    hide Ids, Find, Ready;
    assert ["a", "y"][..1] == ["a"] && ["a"][..0] == [];
    assert RunPass(accepts, job, map[], start, []) == Continue(start);
    assert Visit(accepts, job, map[], start, "a") == Continue(CREATED);
    assert RunPass(accepts, job, map[], start, ["a"]) == Continue(CREATED);
    assert Visit(accepts, job, map[], CREATED, "y") == Continue(CREATED);
  }

  /** The second advance of the one-step workflow finds everything done. */
  lemma PlainCloses(accepts: Registry, out: Fields)
    ensures JobOf(0, Parent(Some(PLAIN.def), map[], Pending), PLAIN.ids').HasIds()
    ensures Decide(accepts, 0, Parent(Some(PLAIN.def), map[], Pending), Done(out), Some(PLAIN.order),
                   PLAIN.ids', map[]) == Complete(StartPass(Done(out)))
  {
    PlainIds();
    var job, start := JobOf(0, Parent(Some(PLAIN.def), map[], Pending), PLAIN.ids'), StartPass(Done(out));
    assert PLAIN.order[..0] == [];
    hide Ids, Find;
    assert RunPass(accepts, job, map[], start, []) == Continue(start);
    assert RunPass(accepts, job, map[], start, PLAIN.order) == Continue(start);
    OnlySucceeded();
  }

  /** The second advance of the other one meets the unknown step. */
  lemma DangledRaises(accepts: Registry, out: Fields)
    ensures JobOf(0, Parent(Some(DANGLED.def), map[], Pending), DANGLED.ids').HasIds()
    ensures Decide(accepts, 0, Parent(Some(DANGLED.def), map[], Pending), Done(out), Some(DANGLED.order),
                   DANGLED.ids', map[]) == Quit
  {
    DangledIds();
    var job, start := JobOf(0, Parent(Some(DANGLED.def), map[], Pending), DANGLED.ids'), StartPass(Done(out));
    var edges := DANGLED.def.edges;
    assert edges[0] == Edge("x", "b") && edges[1] == Edge("a", "y");
    assert forall e :: e in edges ==> e == edges[0] || e == edges[1];
    assert Ready(edges, "y", start.status);
    hide Ids, Find, Ready;
    assert ["a", "y"][..1] == ["a"] && ["a"][..0] == [];
    assert RunPass(accepts, job, map[], start, []) == Continue(start);
    assert RunPass(accepts, job, map[], start, ["a"]) == Continue(start);
    assert Visit(accepts, job, map[], start, "y").Raise?;
    OnlySucceeded();
  }

  lemma OnlySucceeded()
    ensures Failed !in map["a" := Succeeded].Values && Waiting !in map["a" := Succeeded].Values
  {
    var status: map<string, Status> := map["a" := Succeeded];
    assert forall x :: x in status ==> status[x] == Succeeded;
  }

  // ---- The events are steps ----

  lemma ReadNone()
    ensures Read(map[], 0) == Snapshot(map[], map[])
  {
    assert ChildSteps(map[], 0) == {};
  }

  lemma ReadOne(out: Fields)
    ensures Read(map[0 := Child(Succeeded, out)], 0) == Done(out)
  {
    var rows := map[0 := Child(Succeeded, out)];
    assert IsChild(rows, 0, 0) && 0 in ChildIds(rows, 0);
    assert ChildSteps(rows, 0) == {"a"};
    assert ChildRow(rows, 0, "a") == 0;
  }

  lemma FirstDecision(accepts: Registry, plan: Plan, out: Fields)
    requires Opens(accepts, plan)
    ensures Decide(accepts, 0, StateAt(plan, 2, out).parents[0], StateAt(plan, 2, out).locks[0], Some(plan.order),
                   plan.ids, map[]) == Keep(CREATED)
  {
    hide RunPass, Ids;
    assert CREATED.status["a"] == Pending;
  }

  lemma FirstSettles(plan: Plan, out: Fields)
    ensures Settle(StateAt(plan, 2, out), 0, Keep(CREATED)) == StateAt(plan, 3, out)
  {
    assert PendingIds(CREATED.created) == {0};
    assert map[] + CREATED.created == CREATED.created;
    assert (map[0 := Snapshot(map[], map[])]) - {0} == map[];
  }

  lemma NothingReused(out: Fields)
    ensures ReuseFound(map[], CREATED.created)
    ensures ReuseFound(map[0 := Child(Succeeded, out)], map[])
  {
  }

  lemma FirstCommit(accepts: Registry, plan: Plan, out: Fields)
    requires Fits(plan) && Opens(accepts, plan)
    ensures Step(accepts, StateAt(plan, 2, out), EventAt(plan, 2, out), StateAt(plan, 3, out))
  {
    hide Decide, Settle, Choices, ReuseFound, Opens, Step;
    FirstDecision(accepts, plan, out);
    FirstSettles(plan, out);
    NothingReused(out);
    CommitTakes(accepts, StateAt(plan, 2, out), 0, Some(plan.order), plan.ids, map[], Keep(CREATED));
  }

  lemma CommitTakes(accepts: Registry, s: State, p: nat, order: Option<seq<Id>>, ids: map<Id, nat>,
                    reuse: map<Id, Fields>, outcome: Outcome)
    requires p in s.parents && p in s.locks && Choices(s, s.parents[p], order, ids)
    requires Decide(accepts, p, s.parents[p], s.locks[p], order, ids, reuse) == outcome
    requires outcome.Fail? || outcome.Keep? || outcome.Complete? ==> ReuseFound(s.rows, outcome.pass.created)
    ensures Step(accepts, s, Commit(p, order, ids, reuse), Settle(s, p, outcome))
  {
    hide Decide, Settle, Choices, ReuseFound;
    assert CommitStep(accepts, s, p, order, ids, reuse, Settle(s, p, outcome));
  }

  lemma TwoBegins(accepts: Registry, plan: Plan, out: Fields)
    ensures Step(accepts, StateAt(plan, 1, out), EventAt(plan, 1, out), StateAt(plan, 2, out))
    ensures Step(accepts, StateAt(plan, 6, out), EventAt(plan, 6, out), StateAt(plan, 7, out))
  {
    ReadNone();
    ReadOne(out);
    hide Read, CommitStep;
  }

  lemma SubmitAndRing(accepts: Registry, plan: Plan, out: Fields)
    ensures Step(accepts, StateAt(plan, 0, out), EventAt(plan, 0, out), StateAt(plan, 1, out))
    ensures Step(accepts, StateAt(plan, 3, out), EventAt(plan, 3, out), StateAt(plan, 4, out))
  {
    hide Read, CommitStep, BeginStep;
  }

  lemma ClaimOne(accepts: Registry, plan: Plan, out: Fields)
    ensures Step(accepts, StateAt(plan, 4, out), EventAt(plan, 4, out), StateAt(plan, 5, out))
  {
    hide Read, CommitStep, BeginStep;
  }

  lemma FinishOne(accepts: Registry, plan: Plan, out: Fields)
    ensures Step(accepts, StateAt(plan, 5, out), EventAt(plan, 5, out), StateAt(plan, 6, out))
  {
    hide Read, CommitStep, BeginStep;
  }

  lemma EachIsFaithful(w: World, plan: Plan, i: nat)
    requires i < 7
    ensures var out := w.exec("t", map[], map[]); Faithful(w, StateAt(plan, i, out), EventAt(plan, i, out))
  {
    assert "t" != HUMAN_REVIEW;
  }

  lemma EachStep(w: World, plan: Plan, i: nat)
    requires i < 7 && Fits(plan) && Opens(w.accepts, plan)
    ensures var out := w.exec("t", map[], map[]);
      && Step(w.accepts, StateAt(plan, i, out), EventAt(plan, i, out), StateAt(plan, i + 1, out))
      && Faithful(w, StateAt(plan, i, out), EventAt(plan, i, out))
  {
    hide *;
    var out := w.exec("t", map[], map[]);
    EachIsFaithful(w, plan, i);
    SubmitAndRing(w.accepts, plan, out);
    TwoBegins(w.accepts, plan, out);
    ClaimOne(w.accepts, plan, out);
    FinishOne(w.accepts, plan, out);
    FirstCommit(w.accepts, plan, out);
  }

  // ---- The runs ----

  lemma {:induction false} RunsTo(w: World, plan: Plan, i: nat) returns (evs: seq<Event>)
    requires i <= 7 && Fits(plan) && Opens(w.accepts, plan)
    ensures FaithfulRun(w, Init(), evs, StateAt(plan, i, w.exec("t", map[], map[])))
    ensures CrashFreeRun(evs, 0)
  {
    hide Step, Faithful, Fits, Opens;
    var out := w.exec("t", map[], map[]);
    if i == 0 {
      evs := [];
    } else {
      assert CrashFree(EventAt(plan, i - 1, out), 0);
      hide StateAt, FaithfulRun, EventAt;
      var front := RunsTo(w, plan, i - 1);
      EachStep(w, plan, i - 1);
      evs := front + [EventAt(plan, i - 1, out)];
      FaithfulSnoc(w, Init(), front, StateAt(plan, i - 1, out), EventAt(plan, i - 1, out), StateAt(plan, i, out));
    }
  }

  lemma RunsToReread(w: World, plan: Plan) returns (evs: seq<Event>)
    requires Fits(plan) && Opens(w.accepts, plan)
    ensures FaithfulRun(w, Init(), evs, Reread(plan, w.exec("t", map[], map[]))) && CrashFreeRun(evs, 0)
  {
    hide FaithfulRun, Fits, Opens, Reread;
    evs := RunsTo(w, plan, 7);
  }

  lemma PlainSettles(out: Fields)
    ensures Settle(Reread(PLAIN, out), 0, Complete(StartPass(Done(out)))) == AtRest(PLAIN, Succeeded, out)
  {
    var rows := map[0 := Child(Succeeded, out)];
    assert PendingIds(map[]) == {};
    assert rows + map[] == rows;
    assert map[0 := Done(out)] - {0} == map[];
  }

  lemma DangledSettles(out: Fields)
    ensures Settle(Reread(DANGLED, out), 0, Quit) == AtRest(DANGLED, Pending, out)
  {
    assert map[0 := Done(out)] - {0} == map[];
  }

  lemma LastCommit(accepts: Registry, plan: Plan, outcome: Outcome, status: Status, out: Fields)
    requires Fits(plan) && JobOf(0, Parent(Some(plan.def), map[], Pending), plan.ids').HasIds()
    requires Decide(accepts, 0, Parent(Some(plan.def), map[], Pending), Done(out), Some(plan.order), plan.ids', map[])
      == outcome
    requires outcome == Quit || outcome == Complete(StartPass(Done(out)))
    requires Settle(Reread(plan, out), 0, outcome) == AtRest(plan, status, out)
    ensures Step(accepts, Reread(plan, out), Commit(0, Some(plan.order), plan.ids', map[]), AtRest(plan, status, out))
  {
    hide Decide, Settle, Choices, ReuseFound, Step;
    NothingReused(out);
    CommitTakes(accepts, Reread(plan, out), 0, Some(plan.order), plan.ids', map[], outcome);
  }

  lemma PlainRun(w: World) returns (evs: seq<Event>)
    requires w.accepts("t", map[])
    ensures FaithfulRun(w, Init(), evs, AtRest(PLAIN, Succeeded, w.exec("t", map[], map[])))
  {
    var out := w.exec("t", map[], map[]);
    hide *;
    PlainFits();
    PlainOpens(w.accepts);
    PlainCloses(w.accepts, out);
    PlainSettles(out);
    LastCommit(w.accepts, PLAIN, Complete(StartPass(Done(out))), Succeeded, out);
    var front := RunsToReread(w, PLAIN);
    var last := Commit(0, Some(PLAIN.order), PLAIN.ids', map[]);
    CommitIsAllowed(w, Reread(PLAIN, out), last);
    FaithfulSnoc(w, Init(), front, Reread(PLAIN, out), last, AtRest(PLAIN, Succeeded, out));
    evs := front + [last];
  }

  lemma CommitIsAllowed(w: World, s: State, e: Event)
    requires e.Commit?
    ensures Faithful(w, s, e) && CrashFree(e, 0)
  {
  }

  lemma DangledRun(w: World) returns (evs: seq<Event>)
    requires w.accepts("t", map[])
    ensures FaithfulRun(w, Init(), evs, AtRest(DANGLED, Pending, w.exec("t", map[], map[])))
    ensures CrashFreeRun(evs, 0)
  {
    var out := w.exec("t", map[], map[]);
    hide Step, FaithfulRun, Faithful, Fits, Opens, Decide, Settle, Reread, AtRest;
    DangledFits();
    DangledOpens(w.accepts);
    DangledRaises(w.accepts, out);
    DangledSettles(out);
    LastCommit(w.accepts, DANGLED, Quit, Pending, out);
    var front := RunsToReread(w, DANGLED);
    var last := Commit(0, Some(DANGLED.order), DANGLED.ids', map[]);
    CommitIsAllowed(w, Reread(DANGLED, out), last);
    FaithfulSnoc(w, Init(), front, Reread(DANGLED, out), last, AtRest(DANGLED, Pending, out));
    evs := front + [last];
  }

  /** In every world that knows the step, the workflow can succeed, with the value the step computes. */
  lemma OneStepWorkflowSucceeds(w: World)
    requires w.accepts("t", map[])
    ensures exists evs, s ::
      && FaithfulRun(w, Init(), evs, s)
      && 0 in s.parents && s.parents[0].status == Succeeded && s.parents[0].def == Some(PLAIN.def)
      && IsChild(s.rows, 0, 0) && s.rows[0].outputs == w.exec("t", map[], map[])
    ensures RefsToAncestors(PLAIN.def) && IsTopological(Ids(PLAIN.def.steps), PLAIN.def.edges, PLAIN.order)
  {
    PlainIds();
    hide FaithfulRun, RefsToAncestors, IsTopological, Ids;
    var evs := PlainRun(w);
  }

  /**
   * Without any crash, the other workflow comes to rest with a step done and one that never will be,
   * and no continuation but an advance that nothing owes changes that.
   */
  lemma DanglingEdgesStrand(w: World)
    requires w.accepts("t", map[])
    ensures exists evs, s ::
      && FaithfulRun(w, Init(), evs, s) && CrashFreeRun(evs, 0)
      && 0 in s.parents && s.parents[0].def == Some(DANGLED.def) && Trapped(s, 0)
      && forall more, s' :: Run(w.accepts, s, more, s') && (forall i :: 0 <= i < |more| ==> more[i] != Kick(0)) ==>
           Untouched(s, 0, s')
    ensures Misleads(DANGLED.def)
  {
    var s := AtRest(DANGLED, Pending, w.exec("t", map[], map[]));
    var evs := DangledRun(w);
    DangledMisleads();
    RestIsTrapped(w.exec("t", map[], map[]));
    hide AtRest, Step, Trapped, Untouched, FaithfulRun, CrashFreeRun, Misleads;
    FaithfulIsRun(w, Init(), evs, s);
    InitUpToDate(0);
    hide Run, Safe;
    RunSafe(w.accepts, Init(), evs, s);
    forall more, s' | Run(w.accepts, s, more, s') && (forall i :: 0 <= i < |more| ==> more[i] != Kick(0))
      ensures Untouched(s, 0, s')
    {
      TrappedForGood(w.accepts, s, more, s', 0);
    }
  }

  lemma RestIsTrapped(out: Fields)
    ensures var s := AtRest(DANGLED, Pending, out);
      Trapped(s, 0) && 0 in s.parents && s.parents[0].def == Some(DANGLED.def)
  {
  }

  lemma DangledMisleads()
    ensures Misleads(DANGLED.def)
  {
    DangledIds();
    DangledOrder();
    hide Ids, KahnOrder;
    assert SortAnswer(DANGLED.def, Some(DANGLED.order)) && "y" in DANGLED.order;
    assert "y" !in ["a", "b"];
  }
}

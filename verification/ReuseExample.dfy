/**
 * A definition with a reference to a step that is no ancestor, in two reachable tables: what its
 * first advance does depends on whether another workflow has already run the referenced step.
 */
module ReuseExample {
  import opened Prelude
  import opened Graphs
  import opened Refs
  import opened Workflow
  import opened Engine
  import opened EngineInputs
  import EngineExample

  // ---- A definition whose first advance depends on reuse ----

  const PRODUCER := StepDef("a", "t", map[], map[])
  const CONSUMER := StepDef("b", "t", map[], map["k" := Str("$steps.a.outputs.x")])

  /** Two steps without an edge between them, although one refers to the other's output. */
  const UNORDERED := Definition([PRODUCER, CONSUMER], [])
  const BOTH := ["a", "b"]

  lemma UnorderedIds()
    ensures Ids(UNORDERED.steps) == BOTH && KahnOrder(BOTH, UNORDERED.edges, BOTH)
    ensures Find(UNORDERED.steps, "a") == PRODUCER && Find(UNORDERED.steps, "b") == CONSUMER
  {
    assert [PRODUCER, CONSUMER][..1] == [PRODUCER] && [PRODUCER][..0] == [];
    assert Ids([PRODUCER]) == ["a"];
  }

  lemma ConsumerInputs(outputs: map<Id, Fields>)
    ensures FrozenInputs(CONSUMER, outputs, map[]).Ok?
       <==> "a" in outputs && "x" in outputs["a"]
  {
    ReferencesAsWritten();
    hide Classify;
    assert "k" in CONSUMER.inputs;
    assert Resolve(CONSUMER.inputs["k"], outputs, map[]).Ok? <==> "a" in outputs && "x" in outputs["a"];
  }

  /** The rows of the first advance: a copied or pending producer, and perhaps a pending consumer. */
  ghost predicate FirstRows(job: Job, reuse: map<Id, Fields>, pass: Pass)
    requires job.HasIds() && "a" in job.ids && "b" in job.ids
  {
    var rowA := if "a" in reuse then NewRow(job, PRODUCER, Succeeded, job.params, reuse["a"])
                else NewRow(job, PRODUCER, Pending, job.params, map[]);
    && job.ids["a"] in pass.created && pass.created[job.ids["a"]] == rowA
    && forall c :: c in pass.created && c != job.ids["a"] ==>
         pass.created[c].step == "b" && ("b" !in reuse ==> pass.created[c].status == Pending)
  }

  /**
   * The first advance over the one order the sort gives goes on or fails the run exactly according
   * to whether earlier outputs of the referenced step were found.
   */
  lemma ForwardReferencesDependOnReuse(accepts: Registry, p: nat, ids: map<Id, nat>, reuse: map<Id, Fields>)
    requires accepts("t", map[]) && "a" in ids && "b" in ids && ids["a"] != ids["b"]
    ensures var job := Job(p, UNORDERED, map[], ids);
      && job.HasIds()
      && var v := RunPass(accepts, job, reuse, Pass(map[], map[], map[]), BOTH);
      && (v.Continue? <==> "a" in reuse && "x" in reuse["a"])
      && (v.FailParent? <==> !("a" in reuse && "x" in reuse["a"]))
      && FirstRows(job, reuse, v.pass)
  {
    UnorderedIds();
    hide Ids, Find, Resolve, KahnOrder, FrozenInputs, FirstRows;
    var job, start := Job(p, UNORDERED, map[], ids), Pass(map[], map[], map[]);
    assert BOTH[..1] == ["a"] && ["a"][..0] == [];
    assert RunPass(accepts, job, reuse, start, []) == Continue(start);
    var mid := VisitProducer(accepts, job, reuse);
    assert RunPass(accepts, job, reuse, start, ["a"]) == Continue(mid);
    VisitConsumer(accepts, job, reuse, mid);
    assert RunPass(accepts, job, reuse, start, BOTH) == Visit(accepts, job, reuse, mid, "b");
  }

  lemma VisitProducer(accepts: Registry, job: Job, reuse: map<Id, Fields>) returns (mid: Pass)
    requires job.HasIds() && job.def == UNORDERED && accepts("t", map[])
    requires Ids(UNORDERED.steps) == BOTH && Find(UNORDERED.steps, "a") == PRODUCER
    ensures "a" in job.ids && "b" in job.ids
    ensures Visit(accepts, job, reuse, Pass(map[], map[], map[]), "a") == Continue(mid)
    ensures FirstRows(job, reuse, mid) && mid.created.Keys == {job.ids["a"]} && "b" !in mid.status
    ensures mid.outputs == if "a" in reuse then map["a" := reuse["a"]] else map[]
  {
    hide Ids, Find;
    assert "a" in BOTH && "b" in BOTH;
    assert FrozenInputs(PRODUCER, map[], job.params) == Ok(job.params);
    var row := if "a" in reuse then NewRow(job, PRODUCER, Succeeded, job.params, reuse["a"])
               else NewRow(job, PRODUCER, Pending, job.params, map[]);
    mid := Add(Pass(map[], map[], map[]), "a", job.ids["a"], row);
  }

  lemma VisitConsumer(accepts: Registry, job: Job, reuse: map<Id, Fields>, mid: Pass)
    requires job.HasIds() && job.def == UNORDERED && job.params == map[] && accepts("t", map[])
    requires Ids(UNORDERED.steps) == BOTH && Find(UNORDERED.steps, "b") == CONSUMER
    requires "a" in job.ids && "b" in job.ids && job.ids["a"] != job.ids["b"]
    requires FirstRows(job, reuse, mid) && mid.created.Keys == {job.ids["a"]} && "b" !in mid.status
    requires mid.outputs == if "a" in reuse then map["a" := reuse["a"]] else map[]
    ensures var v := Visit(accepts, job, reuse, mid, "b");
      && (v.Continue? <==> "a" in reuse && "x" in reuse["a"])
      && (v.FailParent? <==> !("a" in reuse && "x" in reuse["a"]))
      && FirstRows(job, reuse, v.pass)
  {
    ConsumerInputs(mid.outputs);
    hide Ids, Find, FrozenInputs;
    assert "b" in BOTH;
  }

  // ---- The same in two reachable states ----

  const FRESH := map["a" := 1, "b" := 2]

  /** The run, submitted and locked in a table that knows nothing of it. */
  function Locked(s: State): State {
    s.(parents := s.parents[1 := Parent(Some(UNORDERED), map[], Pending)],
       locks := s.locks[1 := Snapshot(map[], map[])])
  }

  /** A table without the run, with the row ids that it will use still free. */
  ghost predicate Free(s: State) {
    && 1 !in s.parents && 1 !in s.locks && 1 !in s.owed
    && 1 !in s.rows && 2 !in s.rows && forall r :: r in s.rows ==> s.rows[r].parent != 1
  }

  /** The run after its submission. */
  function Submitted(s: State): State {
    s.(parents := s.parents[1 := Parent(Some(UNORDERED), map[], Pending)], owed := s.owed + multiset{1})
  }

  lemma NoChildren(rows: map<nat, Row>)
    requires forall r :: r in rows ==> rows[r].parent != 1
    ensures Read(rows, 1) == Snapshot(map[], map[])
  {
    assert ChildSteps(rows, 1) == {};
  }

  lemma SubmitIsStep(accepts: Registry, s: State)
    requires Free(s)
    ensures Step(accepts, s, Submit(1, Some(UNORDERED), map[]), Submitted(s))
  {
    assert SubmitStep(s, 1, Some(UNORDERED), map[], Submitted(s));
    hide SubmitStep;
  }

  lemma LockedFrom(s: State)
    requires Free(s)
    ensures var m := Submitted(s);
      && 1 in m.owed && 1 in m.parents && !Terminal(m.parents[1].status) && 1 !in m.locks && m.rows == s.rows
      && Locked(s) == m.(owed := m.owed - multiset{1}, locks := m.locks[1 := Snapshot(map[], map[])])
  {
    assert (s.owed + multiset{1}) - multiset{1} == s.owed;
  }

  lemma BeginIsStep(accepts: Registry, s: State)
    requires Free(s)
    ensures Step(accepts, Submitted(s), Begin(1), Locked(s))
  {
    NoChildren(s.rows);
    LockedFrom(s);
    hide Read, Submitted, Locked, Free;
    assert BeginStep(Submitted(s), 1, Locked(s));
    hide Step;
    BeginTaken(accepts, Submitted(s), 1, Locked(s));
  }

  lemma BeginTaken(accepts: Registry, s: State, p: nat, s': State)
    requires BeginStep(s, p, s')
    ensures Step(accepts, s, Begin(p), s')
  {
    hide BeginStep;
  }

  /** Outputs offered for reuse are those of a succeeded run of the same step. */
  ghost predicate Offered(rows: map<nat, Row>, reuse: map<Id, Fields>) {
    && reuse.Keys <= {"a"}
    && ("a" in reuse ==> exists r :: r in rows && IsPrior(rows[r], "t", KeyOf("t", map[], map[], 1))
                                  && rows[r].outputs == reuse["a"])
  }

  lemma AdvanceEnds(accepts: Registry, s: State, reuse: map<Id, Fields>) returns (t: State)
    requires accepts("t", map[]) && Free(s) && Offered(s.rows, reuse)
    ensures Step(accepts, Locked(s), Commit(1, Some(BOTH), FRESH, reuse), t)
    ensures 1 in t.parents && (t.parents[1].status == Failed <==> !("a" in reuse && "x" in reuse["a"]))
  {
    var m := Locked(s);
    FirstChoices(s);
    hide Offered, Choices, Decide, Settle, ReuseFound, FirstRows;
    var outcome, pass := FirstOutcome(accepts, m, reuse);
    assert Offered(m.rows, reuse);
    OfferIsFound(m.rows, Job(1, UNORDERED, map[], FRESH), reuse, pass);
    t := Settle(m, 1, outcome);
    SettledStatus(m, outcome);
    hide Step;
    EngineExample.CommitTakes(accepts, m, 1, Some(BOTH), FRESH, reuse, outcome);
  }

  lemma FirstChoices(s: State)
    requires Free(s)
    ensures Choices(Locked(s), Parent(Some(UNORDERED), map[], Pending), Some(BOTH), FRESH)
  {
    UnorderedIds();
    hide KahnOrder, Ids;
  }

  lemma FirstOutcome(accepts: Registry, m: State, reuse: map<Id, Fields>) returns (outcome: Outcome, pass: Pass)
    requires accepts("t", map[]) && 1 in m.parents && m.parents[1] == Parent(Some(UNORDERED), map[], Pending)
    requires 1 in m.locks && m.locks[1] == Snapshot(map[], map[])
    ensures JobOf(1, m.parents[1], FRESH).HasIds() && FirstRows(Job(1, UNORDERED, map[], FRESH), reuse, pass)
    ensures outcome == Decide(accepts, 1, m.parents[1], m.locks[1], Some(BOTH), FRESH, reuse)
    ensures if "a" in reuse && "x" in reuse["a"] then outcome == Keep(pass) || outcome == Complete(pass)
            else outcome == Fail(pass)
  {
    ForwardReferencesDependOnReuse(accepts, 1, FRESH, reuse);
    hide RunPass, FirstRows, Ids, AllSucceeded;
    pass := RunPass(accepts, Job(1, UNORDERED, map[], FRESH), reuse, Pass(map[], map[], map[]), BOTH).pass;
    outcome := Decide(accepts, 1, m.parents[1], m.locks[1], Some(BOTH), FRESH, reuse);
  }

  lemma SettledStatus(m: State, outcome: Outcome)
    requires 1 in m.parents && m.parents[1].status == Pending
    requires outcome.Fail? || outcome.Keep? || outcome.Complete?
    ensures 1 in Settle(m, 1, outcome).parents
    ensures Settle(m, 1, outcome).parents[1].status == Failed <==> outcome.Fail?
  {
  }

  lemma OfferIsFound(rows: map<nat, Row>, job: Job, reuse: map<Id, Fields>, pass: Pass)
    requires job == Job(1, UNORDERED, map[], FRESH) && job.HasIds()
    requires FirstRows(job, reuse, pass) && Offered(rows, reuse)
    ensures ReuseFound(rows, pass.created)
  {
  }

  /** A faithful history, the run's submission and its first advance. */
  lemma ThreeMore(w: World, evs: seq<Event>, s: State, reuse: map<Id, Fields>) returns (all: seq<Event>, t: State)
    requires FaithfulRun(w, Init(), evs, s) && w.accepts("t", map[]) && Free(s) && Offered(s.rows, reuse)
    ensures FaithfulRun(w, Init(), all, t)
    ensures all == evs + [Submit(1, Some(UNORDERED), map[])] + [Begin(1)] + [Commit(1, Some(BOTH), FRESH, reuse)]
    ensures 1 in t.parents && (t.parents[1].status == Failed <==> !("a" in reuse && "x" in reuse["a"]))
  {
    hide FaithfulRun, Step;
    SubmitIsStep(w.accepts, s);
    BeginIsStep(w.accepts, s);
    var m := Submitted(s);
    t := AdvanceEnds(w.accepts, s, reuse);
    FaithfulSnoc(w, Init(), evs, s, Submit(1, Some(UNORDERED), map[]), m);
    FaithfulSnoc(w, Init(), evs + [Submit(1, Some(UNORDERED), map[])], m, Begin(1), Locked(s));
    FaithfulSnoc(w, Init(), evs + [Submit(1, Some(UNORDERED), map[])] + [Begin(1)], Locked(s),
                          Commit(1, Some(BOTH), FRESH, reuse), t);
    all := evs + [Submit(1, Some(UNORDERED), map[])] + [Begin(1)] + [Commit(1, Some(BOTH), FRESH, reuse)];
  }

  /**
   * The same definition, submitted and first advanced in two reachable tables: it fails where nothing
   * was computed before, and goes on where another workflow has run the referenced step.
   */
  lemma VerdictDependsOnHistory(w: World)
    requires w.accepts("t", map[]) && "x" in w.exec("t", map[], map[])
    ensures exists evs, s, evs', t, reuse ::
      && FaithfulRun(w, Init(), evs, s) && FaithfulRun(w, Init(), evs', t) && 1 in s.parents && 1 in t.parents
      && evs == [] + [Submit(1, Some(UNORDERED), map[])] + [Begin(1)] + [Commit(1, Some(BOTH), FRESH, map[])]
      && (exists front ::
            evs' == front + [Submit(1, Some(UNORDERED), map[])] + [Begin(1)] + [Commit(1, Some(BOTH), FRESH, reuse)])
      && s.parents[1].status == Failed && t.parents[1].status != Failed
  {
    var out := w.exec("t", map[], map[]);
    var rest := EngineExample.AtRest(EngineExample.PLAIN, Succeeded, out);
    assert FaithfulRun(w, Init(), [], Init());
    assert Free(Init()) && Offered(Init().rows, map[]);
    OfferedAtRest(out);
    hide FaithfulRun, Free, Offered, EngineExample.AtRest;
    var front := EngineExample.PlainRun(w);
    var evs, s := ThreeMore(w, [], Init(), map[]);
    var evs', t := ThreeMore(w, front, rest, map["a" := out]);
  }

  lemma OfferedAtRest(out: Fields)
    ensures var rest := EngineExample.AtRest(EngineExample.PLAIN, Succeeded, out);
      Free(rest) && Offered(rest.rows, map["a" := out])
  {
    var rest := EngineExample.AtRest(EngineExample.PLAIN, Succeeded, out);
    assert 0 in rest.rows && IsPrior(rest.rows[0], "t", KeyOf("t", map[], map[], 1));
    assert rest.rows[0].outputs == map["a" := out]["a"];
  }
}

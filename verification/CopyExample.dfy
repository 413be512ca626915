/**
 * A small workflow left for good although a step of it is ready when its last advance has read the
 * table: the advance in flight finds a run to copy for that step, and has nothing left to cause another.
 */
module CopyExample {
  import opened Prelude
  import opened Graphs
  import opened Refs
  import opened Workflow
  import opened Engine
  import opened EngineSafety
  import opened EngineInputs
  import opened EngineProgress
  import opened EngineCode
  import opened EngineTraps
  import EngineExample

  const CONFIG := map["n" := Num(1.0)]

  /** Three steps; the last has the type, configuration and inputs of a step that another run has done. */
  const FORKED := Definition([StepDef("a", "t", CONFIG, map[]), StepDef("d", "t", CONFIG, map[]),
                              StepDef("e", "t", map[], map[])], [Edge("d", "e")])
  const ORDER := ["a", "d", "e"]
  const IDS := map["a" := 1, "d" := 2, "e" := 3]

  lemma ForkedIds()
    ensures Ids(FORKED.steps) == ORDER
    ensures Find(FORKED.steps, "a") == FORKED.steps[0] && Find(FORKED.steps, "d") == FORKED.steps[1]
    ensures Find(FORKED.steps, "e") == FORKED.steps[2]
  {
    var steps := FORKED.steps;
    assert steps[..2] == [steps[0], steps[1]] && [steps[0], steps[1]][..1] == [steps[0]] && [steps[0]][..0] == [];
    assert Ids([steps[0]]) == ["a"];
    assert Ids([steps[0], steps[1]]) == ["a", "d"];
  }

  lemma ForkedReady(x: Id, status: map<Id, Status>)
    ensures Ready(FORKED.edges, x, status) <==> (x != "e" || ("d" in status && status["d"] == Succeeded))
  {
    assert FORKED.edges[0] == Edge("d", "e") && FORKED.edges[0] in FORKED.edges;
    assert forall e :: e in FORKED.edges ==> e == FORKED.edges[0];
  }

  lemma ForkedOrder()
    ensures KahnOrder(ORDER, FORKED.edges, ORDER)
  {
    assert FORKED.edges[0] == Edge("d", "e") && forall e :: e in FORKED.edges ==> e == FORKED.edges[0];
    assert ORDER[..0] == [] && ORDER[..1] == ["a"] && ORDER[..2] == ["a", "d"];
  }

  lemma ForkedSorts()
    ensures SortAnswer(FORKED, Some(ORDER)) && !Misleads(FORKED)
  {
    ForkedIds();
    ForkedOrder();
    forall order, x | SortAnswer(FORKED, Some(order)) && x in order ensures x in ORDER {
      assert IsNode(ORDER, FORKED.edges, x);
      assert forall e :: e in FORKED.edges ==> e == FORKED.edges[0];
    }
  }

  // ---- The run ----

  function Side(step: Id, status: Status, outputs: Fields): Row {
    Row(1, step, "t", status, map[], outputs, CONFIG, Hashed("t", CONFIG, map[]))
  }

  /** The step that the other run has done, and the first two of this one. */
  function Table(out: Fields, a: Row, d: Row): map<nat, Row> {
    map[0 := EngineExample.Child(Succeeded, out), 1 := a, 2 := d]
  }

  function Parents(): map<nat, Parent> {
    map[0 := Parent(Some(EngineExample.PLAIN.def), map[], Succeeded), 1 := Parent(Some(FORKED), map[], Pending)]
  }

  /** The dictionaries of the second advance, which read the first step while it was running. */
  function Stale(value: Fields): Snapshot {
    Snapshot(map["a" := Running, "d" := Succeeded], map["d" := value])
  }

  /** The states up to the second doorbell. */
  function Early(i: nat, out: Fields): State
    requires i <= 5
  {
    var none, one, both := multiset{}, multiset{1 as nat}, multiset{1 as nat, 2 as nat};
    var first := map[0 := EngineExample.Child(Succeeded, out)];
    var created := Table(out, Side("a", Pending, map[]), Side("d", Pending, map[]));
    if i == 0 then EngineExample.AtRest(EngineExample.PLAIN, Succeeded, out)
    else if i == 1 then State(Parents(), first, map[], one, none, none)
    else if i == 2 then State(Parents(), first, map[1 := Snapshot(map[], map[])], none, none, none)
    else if i == 3 then State(Parents(), created, map[], none, both, none)
    else if i == 4 then State(Parents(), created, map[], none, multiset{2 as nat}, one)
    else State(Parents(), created, map[], none, none, both)
  }

  /** The states from the first claim on, where messages and doorbells play no part any more. */
  function Late(a: Row, d: Row, locks: map<nat, Snapshot>, owed: multiset<nat>, out: Fields): State {
    State(Parents(), Table(out, a, d), locks, owed, multiset{}, multiset{})
  }

  /** The states between the events of the run; `out` and `value` are what the steps compute. */
  function StateAt(i: nat, out: Fields, value: Fields): State
    requires i <= 11
  {
    var none, one := multiset{}, multiset{1 as nat};
    var busy, done := Side("a", Running, map[]), Side("d", Succeeded, value);
    if i <= 5 then Early(i, out)
    else if i == 6 then
      State(Parents(), Table(out, busy, Side("d", Pending, map[])), map[], none, none, multiset{2 as nat})
    else if i == 7 then Late(busy, Side("d", Running, map[]), map[], none, out)
    else if i == 8 then Late(busy, done, map[], one, out)
    else if i == 9 then Late(busy, done, map[1 := Stale(value)], none, out)
    else Late(Side("a", Succeeded, value), done, map[1 := Stale(value)], if i == 10 then one else none, out)
  }

  function EventAt(i: nat, value: Fields): Event
    requires i < 11
  {
    if i == 0 then Submit(1, Some(FORKED), map[])
    else if i == 1 || i == 8 then Begin(1)
    else if i == 2 then Commit(1, Some(ORDER), IDS, map[])
    else if i == 3 || i == 4 then Ring(i - 2)
    else if i == 5 || i == 6 then Claim(i - 4)
    else if i == 7 then Finish(2, value)
    else if i == 9 then Finish(1, value)
    else LoseAdvance(1)
  }

  lemma StepSubmit(accepts: Registry, out: Fields, value: Fields)
    ensures Step(accepts, StateAt(0, out, value), EventAt(0, value), StateAt(1, out, value))
  {
    hide Read, CommitStep, BeginStep;
  }

  lemma RingFirst(accepts: Registry, out: Fields, value: Fields)
    ensures Step(accepts, StateAt(3, out, value), EventAt(3, value), StateAt(4, out, value))
  {
    hide Read, CommitStep, BeginStep, Table;
  }

  lemma RingSecond(accepts: Registry, out: Fields, value: Fields)
    ensures Step(accepts, StateAt(4, out, value), EventAt(4, value), StateAt(5, out, value))
  {
    hide Read, CommitStep, BeginStep, Table;
  }

  lemma StepLose(accepts: Registry, out: Fields, value: Fields)
    ensures Step(accepts, StateAt(10, out, value), EventAt(10, value), StateAt(11, out, value))
  {
    hide Read, CommitStep, BeginStep;
  }

  lemma TableIs(out: Fields, a: Row, d: Row)
    ensures var rows := Table(out, a, d);
      && 1 in rows && 2 in rows && rows[1] == a && rows[2] == d
      && (forall a' :: rows[1 := a'] == Table(out, a', d)) && (forall d' :: rows[2 := d'] == Table(out, a, d'))
  {
  }

  lemma ClaimFirst(accepts: Registry, out: Fields, value: Fields)
    ensures Step(accepts, StateAt(5, out, value), EventAt(5, value), StateAt(6, out, value))
  {
    TableIs(out, Side("a", Pending, map[]), Side("d", Pending, map[]));
    hide Read, CommitStep, BeginStep, Table;
  }

  lemma ClaimSecond(accepts: Registry, out: Fields, value: Fields)
    ensures Step(accepts, StateAt(6, out, value), EventAt(6, value), StateAt(7, out, value))
  {
    TableIs(out, Side("a", Running, map[]), Side("d", Pending, map[]));
    hide Read, CommitStep, BeginStep, Table;
  }

  lemma FinishTakes(accepts: Registry, s: State, r: nat, value: Fields, s': State)
    requires HasStatus(s, r, Running)
    requires s' == s.(rows := s.rows[r := s.rows[r].(status := Succeeded, outputs := value)],
                      owed := s.owed + multiset{s.rows[r].parent})
    ensures Step(accepts, s, Finish(r, value), s')
  {
    assert SucceedStep(s, r, Running, value, s');
  }

  lemma FinishSecondState(out: Fields, value: Fields)
    ensures var s := StateAt(7, out, value);
      && HasStatus(s, 2, Running) && EventAt(7, value) == Finish(2, value)
      && StateAt(8, out, value) == s.(rows := s.rows[2 := s.rows[2].(status := Succeeded, outputs := value)],
                                      owed := s.owed + multiset{s.rows[2].parent})
  {
    TableIs(out, Side("a", Running, map[]), Side("d", Running, map[]));
    hide Table, Early;
  }

  lemma FinishSecond(accepts: Registry, out: Fields, value: Fields)
    ensures Step(accepts, StateAt(7, out, value), EventAt(7, value), StateAt(8, out, value))
  {
    FinishSecondState(out, value);
    hide StateAt, EventAt, Step;
    FinishTakes(accepts, StateAt(7, out, value), 2, value, StateAt(8, out, value));
  }

  lemma FinishFirstState(out: Fields, value: Fields)
    ensures var s := StateAt(9, out, value);
      && HasStatus(s, 1, Running) && EventAt(9, value) == Finish(1, value)
      && StateAt(10, out, value) == s.(rows := s.rows[1 := s.rows[1].(status := Succeeded, outputs := value)],
                                      owed := s.owed + multiset{s.rows[1].parent})
  {
    TableIs(out, Side("a", Running, map[]), Side("d", Succeeded, value));
    hide Table, Early;
  }

  lemma FinishFirst(accepts: Registry, out: Fields, value: Fields)
    ensures Step(accepts, StateAt(9, out, value), EventAt(9, value), StateAt(10, out, value))
  {
    FinishFirstState(out, value);
    hide StateAt, EventAt, Step;
    FinishTakes(accepts, StateAt(9, out, value), 1, value, StateAt(10, out, value));
  }

  // ---- The two advances ----

  function Work(): Job {
    Job(1, FORKED, map[], IDS)
  }

  const CREATED := Pass(map["a" := Pending, "d" := Pending], map[],
                        map[1 := Side("a", Pending, map[]), 2 := Side("d", Pending, map[])])

  lemma VisitRoot(accepts: Registry, pass: Pass, x: Id)
    requires accepts("t", CONFIG) && (x == "a" || x == "d") && x !in pass.status && Work().HasIds()
    ensures Visit(accepts, Work(), map[], pass, x) == Continue(Add(pass, x, IDS[x], Side(x, Pending, map[])))
  {
    ForkedIds();
    ForkedReady(x, pass.status);
    hide Ids, Find, Ready;
  }

  lemma VisitLast(accepts: Registry)
    requires Work().HasIds()
    ensures Visit(accepts, Work(), map[], CREATED, "e") == Continue(CREATED)
  {
    ForkedReady("e", CREATED.status);
    hide Ready;
  }

  lemma FirstPass(accepts: Registry)
    requires accepts("t", CONFIG)
    ensures Work().HasIds()
    ensures RunPass(accepts, Work(), map[], Pass(map[], map[], map[]), ORDER) == Continue(CREATED)
  {
    ForkedIds();
    var start := Pass(map[], map[], map[]);
    var mid := Add(start, "a", 1, Side("a", Pending, map[]));
    hide Ids, Find, Visit;
    assert ORDER[..2] == ["a", "d"] && ["a", "d"][..1] == ["a"] && ["a"][..0] == [];
    VisitRoot(accepts, start, "a");
    VisitRoot(accepts, mid, "d");
    VisitLast(accepts);
    assert RunPass(accepts, Work(), map[], start, []) == Continue(start);
    assert RunPass(accepts, Work(), map[], start, ["a"]) == Continue(mid);
    assert Add(mid, "d", 2, Side("d", Pending, map[])) == CREATED;
    assert RunPass(accepts, Work(), map[], start, ["a", "d"]) == Continue(CREATED);
  }

  lemma NotAllDone(status: map<Id, Status>)
    requires "a" in status && status["a"] != Succeeded
    ensures !AllSucceeded(FORKED, status)
  {
    ForkedIds();
    hide Ids;
    assert "a" in ORDER;
  }

  lemma FirstDecision(accepts: Registry)
    requires accepts("t", CONFIG)
    ensures Work().HasIds()
    ensures Decide(accepts, 1, Parents()[1], Snapshot(map[], map[]), Some(ORDER), IDS, map[]) == Keep(CREATED)
  {
    FirstPass(accepts);
    NotAllDone(CREATED.status);
    hide RunPass, AllSucceeded;
  }

  lemma FirstSettles(out: Fields, value: Fields)
    ensures Settle(StateAt(2, out, value), 1, Keep(CREATED)) == StateAt(3, out, value)
  {
    assert PendingIds(CREATED.created) == {1, 2};
    assert map[0 := EngineExample.Child(Succeeded, out)] + CREATED.created
        == Table(out, Side("a", Pending, map[]), Side("d", Pending, map[]));
    assert (map[1 := Snapshot(map[], map[])]) - {1} == map[];
  }

  lemma FirstChoices(out: Fields, value: Fields)
    ensures Choices(StateAt(2, out, value), Parents()[1], Some(ORDER), IDS)
  {
    ForkedIds();
    ForkedSorts();
    hide Ids, SortAnswer;
  }

  lemma FirstState(out: Fields, value: Fields)
    ensures var s := StateAt(2, out, value);
      && 1 in s.parents && 1 in s.locks && s.parents[1] == Parents()[1] && s.locks[1] == Snapshot(map[], map[])
      && ReuseFound(s.rows, CREATED.created)
    ensures EventAt(2, value) == Commit(1, Some(ORDER), IDS, map[])
  {
  }

  lemma StepCommit(accepts: Registry, out: Fields, value: Fields)
    requires accepts("t", CONFIG)
    ensures Step(accepts, StateAt(2, out, value), EventAt(2, value), StateAt(3, out, value))
  {
    FirstDecision(accepts);
    FirstSettles(out, value);
    FirstChoices(out, value);
    FirstState(out, value);
    hide Decide, Settle, Choices, Step, StateAt, EventAt, Work, ReuseFound;
    EngineExample.CommitTakes(accepts, StateAt(2, out, value), 1, Some(ORDER), IDS, map[], Keep(CREATED));
  }

  lemma ReadNone(out: Fields)
    ensures Read(map[0 := EngineExample.Child(Succeeded, out)], 1) == Snapshot(map[], map[])
  {
    assert ChildSteps(map[0 := EngineExample.Child(Succeeded, out)], 1) == {};
  }

  lemma TwoChildren(out: Fields, value: Fields)
    ensures var rows := Table(out, Side("a", Running, map[]), Side("d", Succeeded, value));
      Unique(rows) && ChildIds(rows, 1) == {1, 2} && IsChild(rows, 1, 1) && IsChild(rows, 2, 1)
  {
  }

  lemma ReadStale(out: Fields, value: Fields)
    ensures Read(Table(out, Side("a", Running, map[]), Side("d", Succeeded, value)), 1) == Stale(value)
  {
    var rows := Table(out, Side("a", Running, map[]), Side("d", Succeeded, value));
    TwoChildren(out, value);
    assert rows[1] == Side("a", Running, map[]) && rows[2] == Side("d", Succeeded, value);
    hide Unique, Table;
    ReadIsExact(rows, 1, 1);
    ReadIsExact(rows, 1, 2);
    StaleKeys(rows);
    hide ChildIds, ChildSteps, Read, IsChild, Coherent, Stale;
    IsStale(Read(rows, 1), value);
  }

  lemma IsStale(snap: Snapshot, value: Fields)
    requires snap.status.Keys == {"a", "d"} && snap.outputs.Keys <= {"a", "d"}
    requires snap.status["a"] == Running && snap.status["d"] == Succeeded
    requires "a" !in snap.outputs && "d" in snap.outputs && snap.outputs["d"] == value
    ensures snap == Stale(value)
  {
    assert snap.status == Stale(value).status;
    assert snap.outputs == Stale(value).outputs;
  }

  lemma StaleKeys(rows: map<nat, Row>)
    requires ChildIds(rows, 1) == {1, 2} && rows[1].step == "a" && rows[2].step == "d"
    ensures Read(rows, 1).status.Keys == {"a", "d"} && Read(rows, 1).outputs.Keys <= {"a", "d"}
  {
    assert ChildSteps(rows, 1) == {"a", "d"} by {
      assert 1 in ChildIds(rows, 1) && 2 in ChildIds(rows, 1);
      hide ChildIds;
    }
    hide ChildSteps;
  }

  lemma BeginFirst(accepts: Registry, out: Fields, value: Fields)
    ensures Step(accepts, StateAt(1, out, value), EventAt(1, value), StateAt(2, out, value))
  {
    ReadNone(out);
    hide Read, CommitStep;
  }

  lemma BeginSecond(accepts: Registry, out: Fields, value: Fields)
    ensures Step(accepts, StateAt(8, out, value), EventAt(8, value), StateAt(9, out, value))
  {
    ReadStale(out, value);
    hide Read, CommitStep;
  }

  lemma EachIsFaithful(w: World, i: nat)
    requires i < 11
    ensures var out, value := w.exec("t", map[], map[]), w.exec("t", CONFIG, map[]);
      Faithful(w, StateAt(i, out, value), EventAt(i, value))
  {
    var out, value := w.exec("t", map[], map[]), w.exec("t", CONFIG, map[]);
    hide StateAt, RowValue;
    if i == 7 || i == 9 { StatesComputed(w, i); }
  }

  /** What the two steps finish with is what they compute. */
  lemma StatesComputed(w: World, i: nat)
    requires i == 7 || i == 9
    ensures var s, r := StateAt(i, w.exec("t", map[], map[]), w.exec("t", CONFIG, map[])), if i == 7 then 2 else 1;
      r in s.rows && RowValue(w, s.rows[r]) == w.exec("t", CONFIG, map[])
  {
    var out, value := w.exec("t", map[], map[]), w.exec("t", CONFIG, map[]);
    TableIs(out, Side("a", Running, map[]), if i == 7 then Side("d", Running, map[]) else Side("d", Succeeded, value));
    assert "t" != HUMAN_REVIEW;
    hide Table, Early;
  }

  lemma EachStep(accepts: Registry, i: nat, out: Fields, value: Fields)
    requires i < 11 && accepts("t", CONFIG)
    ensures Step(accepts, StateAt(i, out, value), EventAt(i, value), StateAt(i + 1, out, value))
  {
    hide *;
    StepSubmit(accepts, out, value);
    BeginFirst(accepts, out, value);
    StepCommit(accepts, out, value);
    RingFirst(accepts, out, value);
    RingSecond(accepts, out, value);
    ClaimFirst(accepts, out, value);
    ClaimSecond(accepts, out, value);
    FinishSecond(accepts, out, value);
    BeginSecond(accepts, out, value);
    FinishFirst(accepts, out, value);
    StepLose(accepts, out, value);
  }

  lemma StartsAtRest(out: Fields, value: Fields)
    ensures StateAt(0, out, value) == EngineExample.AtRest(EngineExample.PLAIN, Succeeded, out)
  {
  }

  lemma {:induction false} RunsTo(w: World, i: nat) returns (evs: seq<Event>)
    requires i <= 11 && forall config :: w.accepts("t", config)
    ensures FaithfulRun(w, Init(), evs, StateAt(i, w.exec("t", map[], map[]), w.exec("t", CONFIG, map[])))
  {
    hide *;
    var out, value := w.exec("t", map[], map[]), w.exec("t", CONFIG, map[]);
    if i == 0 {
      StartsAtRest(out, value);
      evs := EngineExample.PlainRun(w);
    } else {
      var front := RunsTo(w, i - 1);
      EachStep(w.accepts, i - 1, out, value);
      EachIsFaithful(w, i - 1);
      evs := front + [EventAt(i - 1, value)];
      FaithfulSnoc(w, Init(), front, StateAt(i - 1, out, value), EventAt(i - 1, value), StateAt(i, out, value));
    }
  }

  // ---- What the advance in flight will do ----

  /** The code's sort lists the three steps, in whatever order. */
  lemma ForkedCovered(code: Code)
    requires Sorts(code)
    ensures code.sort(FORKED).Some? && forall x :: x in code.sort(FORKED).value <==> x in ORDER
  {
    ForkedSorts();
    ForkedIds();
    assert SortAnswer(FORKED, code.sort(FORKED));
    hide KahnOrder, Sorts, Ids;
    if code.sort(FORKED).None? {
      var m :| KahnOrder(ORDER, FORKED.edges, m) && |m| != |ORDER|;
      KahnSizesAgree(ORDER, FORKED.edges, ORDER, m);
    } else {
      KahnOrdersAgree(ORDER, FORKED.edges, ORDER, code.sort(FORKED).value);
    }
  }

  /** The dry run of any order of the steps copies the last one and does nothing else. */
  lemma {:induction false} DryCopies(accepts: Registry, out: Fields, value: Fields, order: seq<Id>)
    requires (forall config :: accepts("t", config)) && forall x :: x in order ==> x in ORDER
    ensures var rows := StateAt(11, out, value).rows;
      var dry := DryRun(accepts, FORKED, map[], rows, Stale(value), order);
      && dry.Going? && dry.status == if "e" in order then Stale(value).status["e" := Succeeded] else Stale(value).status
  {
    if order != [] {
      var n := |order| - 1;
      assert order == order[..n] + [order[n]];
      DryCopies(accepts, out, value, order[..n]);
      hide StateAt;
      var dry := DryRun(accepts, FORKED, map[], StateAt(11, out, value).rows, Stale(value), order[..n]);
      DryVisits(accepts, out, value, dry, order[n]);
    }
  }

  lemma DryVisits(accepts: Registry, out: Fields, value: Fields, dry: Dry, x: Id)
    requires (forall config :: accepts("t", config)) && x in ORDER && dry.Going?
    requires dry.status == Stale(value).status || dry.status == Stale(value).status["e" := Succeeded]
    ensures var next := DryVisit(accepts, FORKED, map[], StateAt(11, out, value).rows, dry, x);
      next.Going? && next.status == if x == "e" then Stale(value).status["e" := Succeeded] else dry.status
  {
    hide StateAt, Ready, Ids, Find, Copied, FrozenInputs;
    if x == "e" && x !in dry.status {
      DryCopy(accepts, out, value, dry);
    } else {
      assert x in dry.status;
    }
  }

  lemma DryCopy(accepts: Registry, out: Fields, value: Fields, dry: Dry)
    requires accepts("t", map[]) && dry.Going? && dry.status == Stale(value).status
    ensures var next := DryVisit(accepts, FORKED, map[], StateAt(11, out, value).rows, dry, "e");
      next.Going? && next.status == dry.status["e" := Succeeded]
  {
    ForkedIds();
    ForkedReady("e", dry.status);
    CanCopy(out, value);
    hide StateAt, Ready, Ids, Find, Copied;
  }

  lemma CanCopy(out: Fields, value: Fields)
    ensures Copied(StateAt(11, out, value).rows, FORKED.steps[2], map[]).Some?
  {
    var rows := StateAt(11, out, value).rows;
    assert rows[0] == EngineExample.Child(Succeeded, out);
    hide StateAt;
    assert Copyable(rows, 0, FORKED.steps[2], map[]);
  }

  lemma LastOutlook(code: Code, out: Fields, value: Fields)
    requires Sorts(code) && forall config :: code.world.accepts("t", config)
    ensures code.sort(FORKED).Some? && Ids(FORKED.steps) == ORDER
    ensures var dry := DryRun(code.Accepts(), FORKED, map[], StateAt(11, out, value).rows, Stale(value),
                              code.sort(FORKED).value);
      dry.Going? && dry.status == Stale(value).status["e" := Succeeded]
  {
    ForkedCovered(code);
    ForkedIds();
    assert "e" in ORDER;
    hide Sorts, Ids, StateAt, DryRun;
    DryCopies(code.Accepts(), out, value, code.sort(FORKED).value);
  }

  lemma LastState(out: Fields, value: Fields)
    ensures var s := StateAt(11, out, value);
      && 1 in s.parents && s.parents[1] == Parent(Some(FORKED), map[], Pending)
      && 1 in s.locks && s.locks[1] == Stale(value)
  {
  }

  lemma DryIsIdle(code: Code, out: Fields, value: Fields)
    requires Sorts(code) && forall config :: code.world.accepts("t", config)
    ensures var s := StateAt(11, out, value);
      1 in s.parents && 1 in s.locks && s.parents[1].def.Some? && !Stirs(code, s, 1)
  {
    LastState(out, value);
    LastOutlook(code, out, value);
    NotAllDone(Stale(value).status["e" := Succeeded]);
    hide DryRun, StateAt, Ids, Sorts, AllSucceeded;
  }

  lemma LeftForGood(out: Fields, value: Fields)
    ensures var s := StateAt(11, out, value);
      && Live(s, 1) && FORKED.steps != [] && 1 !in s.owed && !HasActiveChild(s, 1)
      && 1 in s.locks && s.locks[1] == Stale(value) && s.parents[1].def == Some(FORKED)
  {
    ForkedSorts();
    hide SortAnswer, Misleads;
  }

  /** Some step is ready by what the advance has read, and has no child. */
  ghost predicate HasReadyStep(s: State, p: nat)
    requires p in s.parents && s.parents[p].def.Some? && p in s.locks
  {
    var def, status := s.parents[p].def.value, s.locks[p].status;
    exists x :: x in Ids(def.steps) && x !in status && Ready(def.edges, x, status)
  }

  ghost predicate AllChildrenDone(s: State, p: nat) {
    forall r: nat :: IsChild(s.rows, r, p) ==> s.rows[r].status == Succeeded
  }

  lemma LastIsReady(out: Fields, value: Fields)
    ensures HasReadyStep(StateAt(11, out, value), 1)
  {
    LastState(out, value);
    ForkedIds();
    ForkedReady("e", Stale(value).status);
    hide Ids, Ready, StateAt;
    assert "e" in ORDER && "e" !in Stale(value).status;
  }

  lemma LastIsDone(out: Fields, value: Fields)
    ensures AllChildrenDone(StateAt(11, out, value), 1)
  {
  }

  /**
   * A ready step is not enough: a state that a faithful run reaches, in which the advance in flight
   * has read a step as ready and without a child, every child has succeeded, and yet no events of the
   * code bring the run to a verdict. What is ready will be copied, and a copy makes nobody advance.
   */
  lemma ReadyIsNotEnough(w: World)
    requires ReadsSettings(w) && forall config :: w.accepts("t", config)
    ensures exists evs, s: State ::
      && FaithfulRun(w, Init(), evs, s) && Live(s, 1) && s.parents[1].def.value.steps != []
      && 1 in s.locks && HasReadyStep(s, 1) && AllChildrenDone(s, 1)
      && forall sort :: Sorts(Code(w, sort)) ==> !Finishable(Code(w, sort), s, 1)
  {
    var out, value := w.exec("t", map[], map[]), w.exec("t", CONFIG, map[]);
    var evs := RunsTo(w, 11);
    var s := StateAt(11, out, value);
    LeftForGood(out, value);
    LastIsReady(out, value);
    LastIsDone(out, value);
    hide StateAt, FaithfulRun, ReadsSettings, Live, Sorts, Stirs, Finishable, HasReadyStep, AllChildrenDone;
    forall sort | Sorts(Code(w, sort)) ensures !Finishable(Code(w, sort), s, 1) {
      DryIsIdle(Code(w, sort), out, value);
      FinishableIff(Code(w, sort), evs, s, 1);
    }
  }
}

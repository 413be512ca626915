/**
 * Completion: from every state reached without crashes inside an advance, some continuation of
 * the code's own events brings a live run to a verdict. No reachable state is a trap.
 */
module EngineCompletion {
  import opened Prelude
  import opened Graphs
  import opened Refs
  import opened Workflow
  import opened Engine
  import opened EngineSafety
  import opened EngineRuns
  import opened EngineProgress
  import opened EngineInputs
  import opened EngineCode

  // ---- The choices of an advance always exist ----

  ghost predicate InOrder(ids: seq<Id>, edges: seq<Edge>, l: seq<Id>) {
    forall i :: 0 <= i < |l| ==> IsNode(ids, edges, l[i]) && PredsIn(edges, l[i], l[..i])
  }

  lemma OneMore(ids: seq<Id>, edges: seq<Edge>, l: seq<Id>, x: Id)
    requires InOrder(ids, edges, l) && IsNode(ids, edges, x) && PredsIn(edges, x, l)
    ensures InOrder(ids, edges, l + [x])
  {
    var next := l + [x];
    hide IsNode, PredsIn;
    forall i | 0 <= i < |next| ensures IsNode(ids, edges, next[i]) && PredsIn(edges, next[i], next[..i]) {
      assert i < |l| ==> next[..i] == l[..i];
      assert i == |l| ==> next[..i] == l;
    }
  }

  ghost function Unplaced(ids: seq<Id>, edges: seq<Edge>, l: seq<Id>): set<Id> {
    (set x | x in ids) + (set e | e in edges :: e.dst) - Elements(l)
  }

  lemma OneLess(ids: seq<Id>, edges: seq<Edge>, l: seq<Id>, x: Id)
    requires IsNode(ids, edges, x) && x !in l
    ensures Unplaced(ids, edges, l + [x]) < Unplaced(ids, edges, l)
  {
    assert x in Unplaced(ids, edges, l) && x in Elements(l + [x]);
  }

  lemma {:induction false} ExtendOrder(ids: seq<Id>, edges: seq<Edge>, l: seq<Id>) returns (full: seq<Id>)
    requires NoDup(l) && InOrder(ids, edges, l)
    ensures KahnOrder(ids, edges, full)
    decreases Unplaced(ids, edges, l)
  {
    if x :| IsNode(ids, edges, x) && PredsIn(edges, x, l) && x !in l {
      hide PredsIn, InOrder, IsNode, Unplaced;
      OneMore(ids, edges, l, x);
      OneLess(ids, edges, l, x);
      full := ExtendOrder(ids, edges, l + [x]);
    } else {
      full := l;
    }
  }

  lemma SomeAnswer(def: Definition) returns (order: Option<seq<Id>>)
    ensures SortAnswer(def, order)
  {
    var full := ExtendOrder(Ids(def.steps), def.edges, []);
    order := if |full| == |Ids(def.steps)| then Some(full) else None;
  }

  ghost function SomeSort(def: Definition): (order: Option<seq<Id>>)
    ensures SortAnswer(def, order)
  {
    assert exists o :: SortAnswer(def, o) by { var o := SomeAnswer(def); }
    var order :| SortAnswer(def, order);
    order
  }

  /** In every world the code has a sort that keeps the contract of the topological sort. */
  lemma SortsExist(w: World) returns (code: Code)
    ensures code.world == w && Sorts(code)
  {
    code := Code(w, SomeSort);
  }

  lemma {:induction false} SomeIds(bound: nat, steps: seq<Id>) returns (ids: map<Id, nat>)
    requires NoDup(steps)
    ensures Injective(ids) && (forall x :: x in ids <==> x in steps)
    ensures forall x :: x in ids ==> bound <= ids[x] < bound + |steps|
  {
    if steps == [] {
      ids := map[];
    } else {
      var n := |steps| - 1;
      var front := SomeIds(bound, steps[..n]);
      ids := front[steps[n] := bound + n];
      assert steps == steps[..n] + [steps[n]];
    }
  }

  // ---- A measure of the work left in one run ----

  function Weight(status: Status): nat {
    match status
    case Pending => 5
    case Running => 4
    case Waiting => 3
    case Succeeded => 0
    case Failed => 0
  }

  ghost function StepWeight(rows: map<nat, Row>, p: nat, x: Id): nat {
    if x in ChildSteps(rows, p) then Weight(rows[ChildRow(rows, p, x)].status) else 6
  }

  ghost function TotalWeight(rows: map<nat, Row>, p: nat, steps: seq<Id>): nat {
    if steps == [] then 0
    else TotalWeight(rows, p, steps[..|steps| - 1]) + StepWeight(rows, p, steps[|steps| - 1])
  }

  /** Rows only move down the state machine, so no step ever gets heavier. */
  lemma StepLighter(rows: map<nat, Row>, rows': map<nat, Row>, p: nat, x: Id)
    requires Unique(rows') && Evolves(rows, rows')
    ensures StepWeight(rows', p, x) <= StepWeight(rows, p, x)
  {
    ChildStepsAreChildren(rows, p, x);
    ChildStepsAreChildren(rows', p, x);
    if x in ChildSteps(rows, p) {
      var r := ChildRow(rows, p, x);
      assert RowKept(rows[r], rows'[r]);
      assert IsChild(rows', r, p) && rows'[r].step == x;
      assert SameSlot(rows'[r], rows'[ChildRow(rows', p, x)]);
    }
  }

  lemma {:induction false} AllLighter(rows: map<nat, Row>, rows': map<nat, Row>, p: nat, steps: seq<Id>)
    requires Unique(rows') && Evolves(rows, rows')
    ensures TotalWeight(rows', p, steps) <= TotalWeight(rows, p, steps)
  {
    if steps != [] {
      AllLighter(rows, rows', p, steps[..|steps| - 1]);
      StepLighter(rows, rows', p, steps[|steps| - 1]);
    }
  }

  lemma {:induction false} OneLighter(rows: map<nat, Row>, rows': map<nat, Row>, p: nat,
                                      steps: seq<Id>, x: Id, d: nat)
    requires Unique(rows') && Evolves(rows, rows') && x in steps
    requires StepWeight(rows', p, x) + d <= StepWeight(rows, p, x)
    ensures TotalWeight(rows', p, steps) + d <= TotalWeight(rows, p, steps)
  {
    var n := |steps| - 1;
    AllLighter(rows, rows', p, steps[..n]);
    StepLighter(rows, rows', p, steps[n]);
    if steps[n] != x {
      OneLighter(rows, rows', p, steps[..n], x, d);
    }
  }

  ghost function Work(s: State, p: nat): nat
    requires p in s.parents && s.parents[p].def.Some?
  {
    TotalWeight(s.rows, p, Ids(s.parents[p].def.value.steps)) + 2 * s.owed[p]
    + if p in s.locks then 1 else 0
  }

  lemma ChildWeight(rows: map<nat, Row>, p: nat, r: nat)
    requires Unique(rows) && IsChild(rows, r, p)
    ensures StepWeight(rows, p, rows[r].step) == Weight(rows[r].status)
  {
    assert r in ChildIds(rows, p);
    var x := rows[r].step;
    assert x in ChildSteps(rows, p);
    assert SameSlot(rows[r], rows[ChildRow(rows, p, x)]);
  }

  /** Moving one child of the run down by `d` makes the run lighter by `d`. */
  lemma ChildLighter(s: State, r: nat, s': State, d: nat)
    requires Safe(s) && Safe(s') && Evolves(s.rows, s'.rows) && r in s.rows
    requires Weight(s'.rows[r].status) + d <= Weight(s.rows[r].status)
    ensures var p := s.rows[r].parent;
            && p in s.parents && s.parents[p].def.Some?
            && var steps := Ids(s.parents[p].def.value.steps);
            TotalWeight(s'.rows, p, steps) + d <= TotalWeight(s.rows, p, steps)
  {
    assert RowTyped(s.parents, r, s.rows[r]);
    assert RowKept(s.rows[r], s'.rows[r]);
    assert Unique(s.rows) && Unique(s'.rows);
    hide Safe, Unique, Evolves;
    var p, x := s.rows[r].parent, s.rows[r].step;
    ChildWeight(s.rows, p, r);
    ChildWeight(s'.rows, p, r);
    OneLighter(s.rows, s'.rows, p, Ids(s.parents[p].def.value.steps), x, d);
  }

  // ---- One productive event ----

  ghost predicate Healthy(s: State, p: nat) {
    Safe(s) && UpToDate(s, p)
  }

  /** The run has ended, or it goes on with less work left. */
  ghost predicate Better(s: State, p: nat, s': State)
    requires p in s.parents && s.parents[p].def.Some?
  {
    && p in s'.parents && s'.parents[p].def == s.parents[p].def
    && (Terminal(s'.parents[p].status)
        || (s'.parents[p].status == Pending && Work(s', p) < Work(s, p)))
  }

  lemma LiveFacts(s: State, p: nat)
    requires Live(s, p)
    ensures p in s.parents && s.parents[p].status == Pending && s.parents[p].def.Some?
  {
  }

  lemma StaysHealthy(code: Code, s: State, e: Event, s': State, p: nat)
    requires Healthy(s, p) && AsCoded(code, s, e) && Step(code.Accepts(), s, e, s')
    ensures Healthy(s', p) && Evolves(s.rows, s'.rows)
  {
    hide *;
    CodedIs(code, s, e);
    UndisturbedIsCrashFree(e, p);
    HealthyIs(s, p);
    StepSafe(code.Accepts(), s, e, s');
    StepUpToDate(code.Accepts(), s, e, s', p);
    StepEvolves(code.Accepts(), s, e, s');
    HealthyIs(s', p);
  }

  lemma HealthyIs(s: State, p: nat)
    ensures Healthy(s, p) <==> Safe(s) && UpToDate(s, p)
  {
    hide Safe, UpToDate;
  }

  lemma UndisturbedIsCrashFree(e: Event, p: nat)
    requires Undisturbed(e)
    ensures CrashFree(e, p)
  {
  }

  lemma HealthyUnique(s: State, p: nat)
    requires Healthy(s, p)
    ensures Unique(s.rows)
  {
  }

  lemma DoBegin(code: Code, s: State, p: nat) returns (s': State)
    requires Healthy(s, p) && Live(s, p) && p in s.owed && p !in s.locks
    ensures Step(code.Accepts(), s, Begin(p), s') && AsCoded(code, s, Begin(p))
    ensures Healthy(s', p) && Better(s, p, s')
  {
    s' := s.(owed := s.owed - multiset{p}, locks := s.locks[p := Read(s.rows, p)]);
    hide Safe, UpToDate, Read, Evolves, Healthy;
    assert BeginStep(s, p, s');
    StaysHealthy(code, s, Begin(p), s', p);
  }

  /** Whatever the sort answered, the advance can copy exactly what there is to copy. */
  lemma CopyExactly(code: Code, s: State, p: nat, order: Option<seq<Id>>, ids: map<Id, nat>)
    returns (reuse: map<Id, Fields>)
    requires p in s.parents && p in s.locks && s.parents[p].def.Some?
    requires JobOf(p, s.parents[p], ids).HasIds() && (order.Some? ==> NoDup(order.value))
    ensures var outcome := Decide(code.Accepts(), p, s.parents[p], s.locks[p], order, ids, reuse);
      outcome.Fail? || outcome.Keep? || outcome.Complete? ==> ReuseExact(s.rows, outcome.pass.created)
  {
    var start := StartPass(s.locks[p]);
    assert ReuseExact(s.rows, start.created);
    hide RunPass, AllSucceeded, ReuseExact;
    reuse := map[];
    if order.Some? {
      reuse := CopyAll(code.Accepts(), JobOf(p, s.parents[p], ids), start, order.value, s.rows);
    }
  }

  lemma SortFits(code: Code, def: Definition)
    requires Sorts(code)
    ensures SortAnswer(def, code.sort(def)) && (code.sort(def).Some? ==> NoDup(code.sort(def).value))
  {
  }

  /** The lock holder can always commit, as the code does. */
  lemma CommitOne(code: Code, s: State, p: nat)
    returns (order: Option<seq<Id>>, ids: map<Id, nat>, reuse: map<Id, Fields>, s': State)
    requires Sorts(code) && SameRun(s, p, s) && p in s.locks
    ensures CommitStep(code.Accepts(), s, p, order, ids, reuse, s') && CodedCommit(code, s, p, order, ids, reuse)
    ensures p in s'.parents && s'.parents[p].def == s.parents[p].def && p !in s'.locks
    ensures s'.owed == s.owed
    ensures Terminal(s'.parents[p].status) || s'.parents[p].status == Pending
  {
    var def := s.parents[p].def.value;
    order := code.sort(def);
    SortFits(code, def);
    var bound := Above(s.rows.Keys);
    ids := SomeIds(bound, Ids(def.steps));
    assert Choices(s, s.parents[p], order, ids);
    hide Choices, SortAnswer, Sorts, Decide, Settle, ReuseFound, ReuseExact, NoDup;
    reuse := CopyExactly(code, s, p, order, ids);
    var outcome := Decide(code.Accepts(), p, s.parents[p], s.locks[p], order, ids, reuse);
    if outcome.Fail? || outcome.Keep? || outcome.Complete? { ExactIsFound(s.rows, outcome.pass.created); }
    s' := Settle(s, p, outcome);
    SettleParent(s, p, outcome);
  }

  lemma DoCommit(code: Code, s: State, p: nat) returns (e: Event, s': State)
    requires Sorts(code) && Healthy(s, p) && Live(s, p) && p in s.locks
    ensures Step(code.Accepts(), s, e, s') && AsCoded(code, s, e) && Healthy(s', p) && Better(s, p, s')
  {
    LiveFacts(s, p);
    hide Sorts, Healthy, Live, CommitStep, CodedCommit, Better, Evolves, Step, AsCoded;
    var order, ids, reuse;
    order, ids, reuse, s' := CommitOne(code, s, p);
    e := Commit(p, order, ids, reuse);
    CommitIsStep(code, s, p, order, ids, reuse, s');
    StaysHealthy(code, s, e, s', p);
    CommittedIsBetter(s, p, s');
  }

  lemma CommitIsStep(code: Code, s: State, p: nat, order: Option<seq<Id>>, ids: map<Id, nat>,
                     reuse: map<Id, Fields>, s': State)
    requires CommitStep(code.Accepts(), s, p, order, ids, reuse, s') && CodedCommit(code, s, p, order, ids, reuse)
    ensures Step(code.Accepts(), s, Commit(p, order, ids, reuse), s')
    ensures AsCoded(code, s, Commit(p, order, ids, reuse))
  {
    hide CommitStep, CodedCommit;
  }

  lemma CommittedIsBetter(s: State, p: nat, s': State)
    requires Healthy(s', p) && Evolves(s.rows, s'.rows) && p in s.locks && p !in s'.locks
    requires p in s.parents && s.parents[p].def.Some?
    requires p in s'.parents && s'.parents[p].def == s.parents[p].def && s'.owed == s.owed
    requires Terminal(s'.parents[p].status) || s'.parents[p].status == Pending
    ensures Better(s, p, s')
  {
    HealthyUnique(s', p);
    hide Healthy, Evolves, TotalWeight;
    AllLighter(s.rows, s'.rows, p, Ids(s.parents[p].def.value.steps));
  }

  lemma SettleParent(s: State, p: nat, outcome: Outcome)
    requires p in s.parents && s.parents[p].status == Pending
    ensures var s' := Settle(s, p, outcome);
            && p in s'.parents && s'.parents[p].def == s.parents[p].def && p !in s'.locks
            && s'.owed == s.owed
            && (Terminal(s'.parents[p].status) || s'.parents[p].status == Pending)
  {
    hide Bells;
  }

  lemma DoSweep(code: Code, s: State, p: nat, r: nat) returns (m: State)
    requires Healthy(s, p) && Live(s, p) && HasStatus(s, r, Pending)
    ensures Step(code.Accepts(), s, Sweep(r), m) && AsCoded(code, s, Sweep(r))
    ensures Healthy(m, p) && Live(m, p) && r in m.queue
    ensures m.rows == s.rows && m.parents == s.parents && Work(m, p) == Work(s, p)
  {
    m := s.(queue := s.queue + multiset{r});
    hide Healthy, Evolves;
    assert TrafficStep(s, Sweep(r), m);
    StaysHealthy(code, s, Sweep(r), m, p);
    hide Step, ChildSteps;
  }

  ghost predicate SameRun(s: State, p: nat, s': State) {
    && p in s.parents && s.parents[p].status == Pending && s.parents[p].def.Some?
    && s'.parents == s.parents && s'.locks == s.locks
  }

  lemma LighterIsBetter(s: State, p: nat, s': State, d: nat)
    requires SameRun(s, p, s')
    requires var steps := Ids(s.parents[p].def.value.steps);
             TotalWeight(s'.rows, p, steps) + d <= TotalWeight(s.rows, p, steps)
    requires 2 * s'.owed[p] < 2 * s.owed[p] + d
    ensures Better(s, p, s')
  {
    hide TotalWeight;
  }

  /** A child moving down by more than the advance it may owe makes the run better off. */
  lemma MoveImproves(s: State, p: nat, r: nat, s': State, d: nat)
    requires Healthy(s, p) && Healthy(s', p) && Evolves(s.rows, s'.rows)
    requires SameRun(s, p, s') && r in s.rows && s.rows[r].parent == p
    requires Weight(s'.rows[r].status) + d <= Weight(s.rows[r].status)
    requires 2 * s'.owed[p] < 2 * s.owed[p] + d
    ensures Better(s, p, s')
  {
    hide Healthy, Evolves, TotalWeight, Better, Weight;
    HealthyLighter(s, r, s', d, p);
    LighterIsBetter(s, p, s', d);
  }

  lemma PendingRun(s: State, p: nat)
    requires p in s.parents && s.parents[p].status == Pending && s.parents[p].def.Some?
    ensures SameRun(s, p, s)
  {
  }

  lemma ChildMoved(s: State, p: nat, r: nat, s': State, from: Status, to: Status)
    requires IsChild(s.rows, r, p) && s.rows[r].status == from && HasStatus(s', r, to)
    ensures r in s.rows && s.rows[r].parent == p && r in s'.rows
    ensures Weight(s.rows[r].status) == Weight(from) && Weight(s'.rows[r].status) == Weight(to)
    ensures Weight(Pending) == 5 && Weight(Running) == 4 && Weight(Waiting) == 3 && Weight(Succeeded) == 0
  {
  }

  lemma ClaimOne(code: Code, s: State, p: nat, r: nat) returns (s': State)
    requires SameRun(s, p, s) && HasStatus(s, r, Pending) && r in s.queue
    ensures Step(code.Accepts(), s, Claim(r), s') && AsCoded(code, s, Claim(r)) && SameRun(s, p, s')
    ensures HasStatus(s', r, Running) && s'.rows[r].parent == s.rows[r].parent && s'.owed == s.owed
  {
    s' := s.(rows := s.rows[r := s.rows[r].(status := Running, outputs := s.rows[r].outputs)],
             queue := s.queue - multiset{r});
    assert ClaimStep(s, r, s');
  }

  lemma DoClaim(code: Code, s: State, p: nat, r: nat) returns (s': State)
    requires Healthy(s, p) && Live(s, p) && IsChild(s.rows, r, p) && s.rows[r].status == Pending
    requires r in s.queue
    ensures Step(code.Accepts(), s, Claim(r), s') && AsCoded(code, s, Claim(r)) && Better(s, p, s')
    ensures Healthy(s', p)
  {
    LiveFacts(s, p);
    PendingRun(s, p);
    assert HasStatus(s, r, Pending);
    hide *;
    s' := ClaimOne(code, s, p, r);
    StaysHealthy(code, s, Claim(r), s', p);
    ChildMoved(s, p, r, s', Pending, Running);
    MoveImproves(s, p, r, s', 1);
  }

  lemma HealthyLighter(s: State, r: nat, s': State, d: nat, p: nat)
    requires Healthy(s, p) && Healthy(s', p) && Evolves(s.rows, s'.rows)
    requires r in s.rows && s.rows[r].parent == p
    requires Weight(s'.rows[r].status) + d <= Weight(s.rows[r].status)
    ensures p in s.parents && s.parents[p].def.Some?
    ensures var steps := Ids(s.parents[p].def.value.steps);
            TotalWeight(s'.rows, p, steps) + d <= TotalWeight(s.rows, p, steps)
  {
    ChildLighter(s, r, s', d);
  }

  /** A running step that is no review succeeds with what it computes, and so does a waiting one. */
  lemma SucceedOne(code: Code, s: State, p: nat, r: nat) returns (e: Event, s': State)
    requires SameRun(s, p, s) && IsChild(s.rows, r, p)
    requires (s.rows[r].status == Running && !IsReview(s, r)) || s.rows[r].status == Waiting
    ensures Step(code.Accepts(), s, e, s') && AsCoded(code, s, e) && SameRun(s, p, s')
    ensures HasStatus(s', r, Succeeded) && s'.owed[p] == s.owed[p] + 1
  {
    var from, value := s.rows[r].status, RowValue(code.world, s.rows[r]);
    e := if from == Running then Finish(r, value) else Resume(r, value);
    s' := s.(rows := s.rows[r := s.rows[r].(status := Succeeded, outputs := value)],
             owed := s.owed + multiset{p});
    hide RowValue;
    assert SucceedStep(s, r, from, value, s');
  }

  lemma DoSucceed(code: Code, s: State, p: nat, r: nat) returns (e: Event, s': State)
    requires Healthy(s, p) && Live(s, p) && IsChild(s.rows, r, p)
    requires (s.rows[r].status == Running && !IsReview(s, r)) || s.rows[r].status == Waiting
    ensures Step(code.Accepts(), s, e, s') && AsCoded(code, s, e) && Healthy(s', p) && Better(s, p, s')
  {
    LiveFacts(s, p);
    PendingRun(s, p);
    hide *;
    e, s' := SucceedOne(code, s, p, r);
    StaysHealthy(code, s, e, s', p);
    ChildMoved(s, p, r, s', s.rows[r].status, Succeeded);
    MoveImproves(s, p, r, s', 3);
  }

  /** A running review parks at its gate. */
  lemma ParkOne(code: Code, s: State, p: nat, r: nat) returns (s': State)
    requires SameRun(s, p, s) && HasStatus(s, r, Running) && IsReview(s, r)
    ensures Step(code.Accepts(), s, Park(r, map[]), s') && AsCoded(code, s, Park(r, map[])) && SameRun(s, p, s')
    ensures HasStatus(s', r, Waiting) && s'.rows[r].parent == s.rows[r].parent && s'.owed == s.owed
  {
    s' := s.(rows := s.rows[r := s.rows[r].(status := Waiting, outputs := map["gate_data" := Obj(map[])])]);
    assert ParkStep(s, r, map[], s');
  }

  lemma DoPark(code: Code, s: State, p: nat, r: nat) returns (s': State)
    requires Healthy(s, p) && Live(s, p) && IsChild(s.rows, r, p) && s.rows[r].status == Running && IsReview(s, r)
    ensures Step(code.Accepts(), s, Park(r, map[]), s') && AsCoded(code, s, Park(r, map[])) && Better(s, p, s')
    ensures Healthy(s', p)
  {
    LiveFacts(s, p);
    PendingRun(s, p);
    assert HasStatus(s, r, Running);
    hide *;
    s' := ParkOne(code, s, p, r);
    StaysHealthy(code, s, Park(r, map[]), s', p);
    ChildMoved(s, p, r, s', Running, Waiting);
    MoveImproves(s, p, r, s', 1);
  }

  lemma HealthyLeft(s: State, p: nat)
    requires Healthy(s, p) && Live(s, p) && s.parents[p].def.value.steps != []
    ensures p in s.owed || p in s.locks || HasActiveChild(s, p)
  {
    hide Safe, UpToDate, Live;
    SomethingIsLeft(s, p);
  }

  /** Some short run of the code makes progress on a live workflow. */
  lemma ProgressPossible(code: Code, s: State, p: nat) returns (evs: seq<Event>, s': State)
    requires Sorts(code) && Healthy(s, p) && Live(s, p) && s.parents[p].def.value.steps != []
    ensures CodeRun(code, s, evs, s') && Healthy(s', p) && Better(s, p, s')
  {
    HealthyLeft(s, p);
    hide Sorts, Healthy, Live, Step, Better, CodeRun, AsCoded, Work, Safe, UpToDate;
    if p in s.locks {
      var e;
      e, s' := DoCommit(code, s, p);
      evs := [e];
      CodeOne(code, s, e, s');
    } else if p in s.owed {
      s' := DoBegin(code, s, p);
      evs := [Begin(p)];
      CodeOne(code, s, Begin(p), s');
    } else {
      var r: nat :| IsChild(s.rows, r, p) && !Terminal(s.rows[r].status);
      evs, s' := AdvanceChild(code, s, p, r);
    }
  }

  lemma AdvanceChild(code: Code, s: State, p: nat, r: nat) returns (evs: seq<Event>, s': State)
    requires Healthy(s, p) && Live(s, p) && IsChild(s.rows, r, p) && !Terminal(s.rows[r].status)
    ensures CodeRun(code, s, evs, s') && Healthy(s', p)
    ensures p in s.parents && s.parents[p].def.Some? && Better(s, p, s')
  {
    LiveFacts(s, p);
    hide Healthy, Live, Step, Better, CodeRun, AsCoded, Work, IsReview;
    if s.rows[r].status == Pending {
      evs, s' := StartChild(code, s, p, r);
    } else if s.rows[r].status == Running && IsReview(s, r) {
      s' := DoPark(code, s, p, r);
      evs := [Park(r, map[])];
      CodeOne(code, s, Park(r, map[]), s');
    } else {
      var e;
      e, s' := DoSucceed(code, s, p, r);
      evs := [e];
      CodeOne(code, s, e, s');
    }
  }

  /** A pending child whose message was lost is swept and then claimed. */
  lemma StartChild(code: Code, s: State, p: nat, r: nat) returns (evs: seq<Event>, s': State)
    requires Healthy(s, p) && Live(s, p) && IsChild(s.rows, r, p) && s.rows[r].status == Pending
    ensures CodeRun(code, s, evs, s') && Healthy(s', p)
    ensures p in s.parents && s.parents[p].def.Some? && Better(s, p, s')
  {
    hide *;
    LiveFacts(s, p);
    assert HasStatus(s, r, Pending) by { ChildHasStatus(s, p, r); }
    var m := DoSweep(code, s, p, r);
    s' := DoClaim(code, m, p, r);
    BetterThanSame(s, m, p, s');
    CodeTwo(code, s, Sweep(r), m, Claim(r), s');
    evs := [Sweep(r), Claim(r)];
  }

  lemma ChildHasStatus(s: State, p: nat, r: nat)
    requires IsChild(s.rows, r, p)
    ensures HasStatus(s, r, s.rows[r].status)
  {
  }

  lemma BetterThanSame(s: State, m: State, p: nat, s': State)
    requires p in s.parents && s.parents[p].def.Some? && m.parents == s.parents
    requires Work(m, p) == Work(s, p) && Better(m, p, s')
    ensures Better(s, p, s')
  {
    hide Work;
  }

  lemma {:induction false} FinishFrom(code: Code, s: State, p: nat)
    returns (evs: seq<Event>, s': State)
    requires Sorts(code) && Healthy(s, p) && Live(s, p) && s.parents[p].def.value.steps != []
    ensures CodeRun(code, s, evs, s')
    ensures p in s'.parents && Terminal(s'.parents[p].status)
    decreases Work(s, p)
  {
    hide Sorts, Healthy, CodeRun;
    var first, m := ProgressPossible(code, s, p);
    if Terminal(m.parents[p].status) {
      evs, s' := first, m;
    } else {
      assert Live(m, p);
      var rest;
      rest, s' := FinishFrom(code, m, p);
      CodeAppend(code, s, first, m, rest, s');
      evs := first + rest;
    }
  }

  /**
   * Completion: every live non-empty run that does not mislead the sort can still be brought to a
   * verdict from any state reached without a crash inside one of its advances, however messages were
   * lost. The continuation takes the code's own events only: its sort, its copies, what its steps compute.
   */
  lemma AlwaysFinishable(code: Code, evs: seq<Event>, s: State, p: nat)
    requires Sorts(code) && Run(code.Accepts(), Init(), evs, s) && CrashFreeRun(evs, p)
    requires Live(s, p) && s.parents[p].def.value.steps != []
    ensures exists more, s' :: CodeRun(code, s, more, s') && p in s'.parents && Terminal(s'.parents[p].status)
  {
    InitUpToDate(p);
    hide Sorts, Run, CodeRun, CrashFreeRun, Live, Safe, UpToDate;
    RunSafe(code.Accepts(), Init(), evs, s);
    RunUpToDate(code.Accepts(), Init(), evs, s, p);
    var more, s' := FinishFrom(code, s, p);
  }
}

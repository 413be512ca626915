/**
 * The shared runs table as an object, with the coordinator's two entry points as methods that
 * update it in place. Each method takes only steps of the transition system, so everything proved
 * about reachable states holds of the table after every call.
 */
module RunsStore {
  import opened Prelude
  import opened Graphs
  import opened Refs
  import opened Workflow
  import opened Engine
  import opened EngineSafety
  import opened Coordinator
  import Kahn

  /** How a step's `run` ends. */
  datatype StepResult = Done(outputs: Fields) | Gate(data: Fields) | Raised

  lemma ReachStep(accepts: Registry, s: State, e: Event, s': State)
    requires Reachable(accepts, s) && Step(accepts, s, e, s')
    ensures Reachable(accepts, s')
  {
    var evs :| Run(accepts, Init(), evs, s);
    assert (evs + [e])[..|evs|] == evs;
    assert Run(accepts, Init(), evs + [e], s');
  }

  /** The doorbells of `ids` moved from the outbox to the stream. */
  ghost function RingAll(s: State, ids: multiset<nat>): State {
    s.(bells := s.bells - ids, queue := s.queue + ids)
  }

  /** Begin, commit and ring, with nothing in between; copies are made exactly where possible. */
  ghost predicate Advanced(accepts: Registry, s: State, p: nat, order: Option<seq<Id>>,
                           ids: map<Id, nat>, reuse: map<Id, Fields>, mid: State, s': State) {
    && BeginStep(s, p, mid)
    && (Terminal(s.parents[p].status) ==> s' == mid)
    && (!Terminal(s.parents[p].status) ==>
          && CommitStep(accepts, mid, p, order, ids, reuse,
                        Settle(mid, p, OutcomeOf(accepts, mid, p, order, ids, reuse)))
          && Committed(mid, p, OutcomeOf(accepts, mid, p, order, ids, reuse), s'))
  }

  ghost function OutcomeOf(accepts: Registry, mid: State, p: nat, order: Option<seq<Id>>,
                           ids: map<Id, nat>, reuse: map<Id, Fields>): Outcome
  {
    if p in mid.parents && p in mid.locks
       && (mid.parents[p].def.Some? ==> JobOf(p, mid.parents[p], ids).HasIds())
    then Decide(accepts, p, mid.parents[p], mid.locks[p], order, ids, reuse)
    else Quit
  }

  ghost predicate Committed(mid: State, p: nat, outcome: Outcome, s': State)
    requires p in mid.parents
  {
    && s' == (if outcome.Keep? || outcome.Complete?
              then RingAll(Settle(mid, p, outcome), Bells(outcome.pass.created))
              else Settle(mid, p, outcome))
    && (outcome.Fail? || outcome.Keep? || outcome.Complete? ==>
          ReuseExact(mid.rows, outcome.pass.created))
  }

  ghost predicate AdvanceTook(accepts: Registry, s: State, p: nat, s': State) {
    exists order, ids, reuse, mid :: Advanced(accepts, s, p, order, ids, reuse, mid, s')
  }

  /** A message for a row that is not pending is consumed without effect. */
  lemma IgnoreReached(accepts: Registry, s: State, r: nat, s': State)
    requires Reachable(accepts, s) && r in s.queue && !HasStatus(s, r, Pending)
    requires s' == s.(queue := s.queue - multiset{r})
    ensures TrafficStep(s, Ignore(r), s') && Reachable(accepts, s')
  {
    hide Reachable;
    ReachStep(accepts, s, Ignore(r), s');
  }

  lemma ClaimReached(accepts: Registry, s: State, r: nat, s': State)
    requires Reachable(accepts, s) && r in s.queue && HasStatus(s, r, Pending)
    requires s' == s.(rows := s.rows[r := s.rows[r].(status := Running, outputs := s.rows[r].outputs)],
                      queue := s.queue - multiset{r})
    ensures ClaimStep(s, r, s') && Reachable(accepts, s') && HasStatus(s', r, Running)
  {
    hide Reachable;
    ReachStep(accepts, s, Claim(r), s');
  }

  lemma FailReached(accepts: Registry, s: State, r: nat, s': State)
    requires Reachable(accepts, s) && r in s.queue && HasStatus(s, r, Pending) && ParentFree(s, r)
    requires s' == s.(rows := s.rows[r := s.rows[r].(status := Failed)],
                      parents := SetParent(s, s.rows[r].parent, Failed).parents, queue := s.queue - multiset{r})
    ensures FailRowStep(s, r, Pending, s') && Reachable(accepts, s')
  {
    hide Reachable;
    ReachStep(accepts, s, ClaimUnknown(r), s');
  }

  class Store {
    const accepts: Registry
    var parents: map<nat, Parent>
    var rows: map<nat, Row>
    var queue: multiset<nat>
    ghost var locks: map<nat, Snapshot>
    ghost var owed: multiset<nat>
    ghost var bells: multiset<nat>

    ghost function View(): State
      reads this
    {
      State(parents, rows, locks, owed, bells, queue)
    }

    ghost predicate Valid()
      reads this
    {
      Reachable(accepts, View())
    }

    constructor (accepts: Registry)
      ensures Valid() && this.accepts == accepts && View() == Init()
    {
      this.accepts := accepts;
      parents, rows, queue := map[], map[], multiset{};
      locks, owed, bells := map[], multiset{}, multiset{};
      new;
      assert Run(accepts, Init(), [], View());
    }

    /** The API creates a pending run and owes it a first advance. */
    method SubmitRun(p: nat, def: Option<Definition>, params: Fields)
      requires Valid() && p !in parents
      modifies this
      ensures Valid() && SubmitStep(old(View()), p, def, params, View())
    {
      ghost var s := View();
      parents := parents[p := Parent(def, params, Pending)];
      owed := owed + multiset{p};
      ReachStep(accepts, s, Submit(p, def, params), View());
    }

    method RingOne(r: nat)
      requires Valid() && r in bells
      modifies this`queue, this`bells
      ensures Valid() && queue == old(queue) + multiset{r} && bells == old(bells) - multiset{r}
    {
      hide Reachable;
      ghost var s := View();
      queue := queue + multiset{r};
      bells := bells - multiset{r};
      assert TrafficStep(s, Ring(r), View());
      ReachStep(accepts, s, Ring(r), View());
    }

    /** Send the doorbells of the given rows, one message each. */
    method RingEach(ids: set<nat>)
      requires Valid() && multiset(ids) <= bells
      modifies this`queue, this`bells
      ensures Valid() && View() == RingAll(old(View()), multiset(ids))
    {
      hide Reachable;
      var todo := ids;
      ghost var queue0, bells0, rung := queue, bells, multiset{};
      while todo != {}
        invariant Valid() && rung + multiset(todo) == multiset(ids)
        invariant queue == queue0 + rung && bells + rung == bells0
      {
        var r :| r in todo;
        RingNext(bells0, bells, queue0, queue, rung, multiset(ids), todo, r);
        RingOne(r);
        rung := rung + multiset{r};
        todo := todo - {r};
      }
      assert bells == bells0 - multiset(ids);
    }

    /** One transaction's worth of writes to the table, releasing the parent's lock. */
    method Write(p: nat, created: map<nat, Row>, status: Status, ghost ring: bool)
      requires p in parents
      modifies this
      ensures var open := AddRows(Unlock(old(View()), p), created);
              View() == SetParent(open, p, status).(
                bells := if ring then open.bells + Bells(created) else open.bells)
    {
      rows := rows + created;
      parents := parents[p := parents[p].(status := status)];
      locks := locks - {p};
      if ring { bells := bells + multiset(set r | r in created && created[r].status == Pending); }
    }

    /** Take the parent's lock and read its children. */
    method LockAndRead(p: nat) returns (snap: Snapshot)
      requires Valid() && p in owed && p in parents && p !in locks
      requires !Terminal(parents[p].status)
      modifies this`owed, this`locks
      ensures Valid() && BeginStep(old(View()), p, View())
      ensures p in locks && locks[p] == snap
    {
      ReachableSafe(accepts, View());
      ghost var s := View();
      snap := ReadChildren(rows, p);
      owed := owed - multiset{p};
      locks := locks[p := snap];
      ReachStep(accepts, s, Begin(p), View());
    }

    /** Create and announce every step that is now ready, or finish or fail the run. */
    method AdvanceWorkflow(p: nat)
      requires Valid() && p in owed && p in parents && p !in locks
      modifies this
      ensures Valid() && AdvanceTook(accepts, old(View()), p, View())
    {
      hide Reachable, Settle, Decide, RunPass, Read, SortAnswer, Committed, OutcomeOf;
      ghost var s := View();
      if Terminal(parents[p].status) {
        owed := owed - multiset{p};
        ReachStep(accepts, s, Begin(p), View());
        assert Advanced(accepts, s, p, None, map[], map[], View(), View());
        return;
      }
      var snap := LockAndRead(p);
      ghost var mid := View();
      hide BeginStep;
      PendingParent(accepts, mid, p);
      var order, ids, outcome, reuse := Plan(p, snap);
      ghost var settled := Settle(mid, p, outcome);
      CopiesFound(mid.rows, outcome);
      assert CommitStep(accepts, mid, p, order, ids, reuse, settled);
      hide CommitStep, Choices;
      ReachStep(accepts, mid, Commit(p, order, ids, reuse), settled);
      Save(p, outcome);
      AdvancedBy(accepts, s, p, order, ids, reuse, mid, outcome, View());
    }

    /** Sort, create what is ready, and decide how the advance ends; nothing is written yet. */
    method Plan(p: nat, snap: Snapshot)
      returns (order: Option<seq<Id>>, ids: map<Id, nat>, outcome: Outcome, ghost reuse: map<Id, Fields>)
      requires p in parents
      ensures Choices(View(), parents[p], order, ids)
      ensures outcome == Decide(accepts, p, parents[p], snap, order, ids, reuse)
      ensures outcome.Fail? || outcome.Keep? || outcome.Complete? ==> ReuseExact(rows, outcome.pass.created)
    {
      hide Decide, RunPass;
      order, ids, reuse := None, map[], map[];
      var verdict := Continue(Pass(map[], map[], map[]));
      if parents[p].def.Some? {
        var def := parents[p].def.value;
        order := Kahn.TopoSort(Ids(def.steps), def.edges);
        ids := AssignIds(rows, Ids(def.steps));
        assert SortAnswer(def, order) && FreshIds(View(), def, ids);
        if order.Some? {
          verdict, reuse := CreateReady(accepts, JobOf(p, parents[p], ids), order.value, StartPass(snap), rows);
        }
      }
      outcome := Conclude(p, snap, order, ids, verdict, reuse);
    }

    /** The decision after the loop: pause at a gate, fail, finalise or carry on. */
    method Conclude(p: nat, snap: Snapshot, order: Option<seq<Id>>, ids: map<Id, nat>, verdict: Verdict,
                    ghost reuse: map<Id, Fields>)
      returns (outcome: Outcome)
      requires p in parents
      requires parents[p].def.Some? ==> JobOf(p, parents[p], ids).HasIds()
      requires parents[p].def.Some? && order.Some? ==>
        && verdict == RunPass(accepts, JobOf(p, parents[p], ids), reuse, StartPass(snap), order.value)
        && (!verdict.Raise? ==> ReuseExact(rows, verdict.pass.created))
      ensures outcome == Decide(accepts, p, parents[p], snap, order, ids, reuse)
      ensures outcome.Fail? || outcome.Keep? || outcome.Complete? ==> ReuseExact(rows, outcome.pass.created)
    {
      if parents[p].def.None? || order.None? || Failed in snap.status.Values {
        return Reject;
      }
      if Waiting in snap.status.Values || verdict.Raise? {
        return Quit;
      }
      if verdict.FailParent? {
        return Fail(verdict.pass);
      }
      var def, status := parents[p].def.value, verdict.pass.status;
      if def.steps != [] && forall x | x in Ids(def.steps) :: x in status && status[x] == Succeeded {
        return Complete(verdict.pass);
      }
      outcome := Keep(verdict.pass);
    }

    /** Commit the outcome, then ring for the children it left pending. */
    method Save(p: nat, outcome: Outcome)
      requires p in parents && parents[p].status == Pending
      requires Reachable(accepts, Settle(View(), p, outcome))
      modifies this
      ensures Valid()
      ensures View() == if outcome.Keep? || outcome.Complete?
        then RingAll(Settle(old(View()), p, outcome), Bells(outcome.pass.created))
        else Settle(old(View()), p, outcome)
    {
      hide Reachable;
      ghost var s := View();
      assert s.rows + map[] == s.rows;
      assert s.parents[p := s.parents[p].(status := Pending)] == s.parents;
      match outcome
      case Quit => Write(p, map[], Pending, false);
      case Reject => Write(p, map[], Failed, false);
      case Fail(pass) => Write(p, pass.created, Failed, false);
      case Keep(pass) => Announce(p, pass, Pending);
      case Complete(pass) => Announce(p, pass, Succeeded);
    }

    method Announce(p: nat, pass: Pass, status: Status)
      requires p in parents && parents[p].status == Pending
      requires status == Succeeded || status == Pending
      requires Reachable(accepts, Settle(View(), p, if status == Succeeded then Complete(pass) else Keep(pass)))
      modifies this
      ensures var outcome := if status == Succeeded then Complete(pass) else Keep(pass);
              Valid() && View() == RingAll(Settle(old(View()), p, outcome), Bells(pass.created))
    {
      hide Reachable;
      ghost var s := View();
      assert s.parents[p := s.parents[p].(status := Pending)] == s.parents;
      Write(p, pass.created, status, true);
      assert View() == Settle(s, p, if status == Succeeded then Complete(pass) else Keep(pass));
      hide Settle;
      RingEach(PendingIds(pass.created));
    }

    /**
     * A worker handles one message: claim the row if it is still pending, run the step, and record
     * how it ended; after a success the workflow advances in the same call. Where the call fails the
     * run or advances it, it needs the parent's lock, for which the database would make it wait.
     */
    method ProcessMessage(r: nat, known: bool, result: StepResult)
      requires Valid() && r in queue
      requires HasStatus(View(), r, Pending) && (!known || !result.Gate?) ==> rows[r].parent !in locks
      modifies this
      ensures Valid()
      ensures !old(HasStatus(View(), r, Pending)) ==> TrafficStep(old(View()), Ignore(r), View())
      ensures old(HasStatus(View(), r, Pending)) && !known ==>
        FailRowStep(old(View()), r, Pending, View())
      ensures old(HasStatus(View(), r, Pending)) && known ==>
        exists m :: ClaimStep(old(View()), r, m) && Recorded(accepts, m, r, result, View())
    {
      hide Reachable, AdvanceTook, Recorded, TrafficStep, FailRowStep, ClaimStep;
      var claimed := ClaimRow(r, known);
      if claimed {
        RecordResult(r, result);
      }
    }

    /** The claim guard: a row that is not pending any more, or whose type is unknown, is not run. */
    method ClaimRow(r: nat, known: bool) returns (claimed: bool)
      requires Valid() && r in queue
      requires HasStatus(View(), r, Pending) && !known ==> rows[r].parent !in locks
      modifies this
      ensures Valid() && (claimed <==> old(HasStatus(View(), r, Pending)) && known)
      ensures !old(HasStatus(View(), r, Pending)) ==> TrafficStep(old(View()), Ignore(r), View())
      ensures old(HasStatus(View(), r, Pending)) && !known ==>
        FailRowStep(old(View()), r, Pending, View())
      ensures claimed ==> ClaimStep(old(View()), r, View())
      ensures claimed ==> HasStatus(View(), r, Running) && rows[r].parent in parents
      ensures claimed ==> rows[r].parent == old(rows[r].parent) && locks == old(locks)
    {
      hide Reachable, TrafficStep, ClaimStep, FailRowStep;
      ghost var s := View();
      queue := queue - multiset{r};
      if r !in rows || rows[r].status != Pending {
        IgnoreReached(accepts, s, r, View());
        return false;
      }
      RowHasParent(accepts, s, r);
      if known {
        rows := rows[r := rows[r].(status := Running, outputs := rows[r].outputs)];
        ClaimReached(accepts, s, r, View());
      } else {
        FailChild(r);
        FailReached(accepts, s, r, View());
      }
      claimed := known;
    }

    /** Run the claimed step to its end: succeeded, failed, or waiting at a gate. */
    method RecordResult(r: nat, result: StepResult)
      requires Valid() && HasStatus(View(), r, Running) && rows[r].parent in parents
      requires !result.Gate? ==> rows[r].parent !in locks
      modifies this
      ensures Valid() && Recorded(accepts, old(View()), r, result, View())
    {
      hide Reachable, AdvanceTook;
      ghost var m := View();
      match result
      case Gate(data) =>
        rows := rows[r := rows[r].(status := Waiting, outputs := map["gate_data" := Obj(data)])];
        ReachStep(accepts, m, Park(r, data), View());
      case Raised =>
        FailChild(r);
        assert FailRowStep(m, r, Running, View());
        ReachStep(accepts, m, FailStep(r), View());
      case Done(outputs) =>
        var p := rows[r].parent;
        rows := rows[r := rows[r].(status := Succeeded, outputs := outputs)];
        owed := owed + multiset{p};
        assert SucceedStep(m, r, Running, outputs, View());
        ReachStep(accepts, m, Finish(r, outputs), View());
        AdvanceWorkflow(p);
    }

    /** Fail a child and its parent together. */
    method FailChild(r: nat)
      requires r in rows && rows[r].parent in parents
      modifies this`rows, this`parents
      ensures rows == old(rows)[r := old(rows)[r].(status := Failed)]
      ensures parents == old(SetParent(View(), rows[r].parent, Failed).parents)
    {
      var p := rows[r].parent;
      rows := rows[r := rows[r].(status := Failed)];
      parents := parents[p := parents[p].(status := Failed)];
    }
  }

  lemma PendingParent(accepts: Registry, s: State, p: nat)
    requires Reachable(accepts, s) && p in s.locks
    ensures p in s.parents && s.parents[p].status == Pending
  {
    ReachableSafe(accepts, s);
    LockedIsPending(s, p);
  }

  lemma AdvancedBy(accepts: Registry, s: State, p: nat, order: Option<seq<Id>>, ids: map<Id, nat>,
                   reuse: map<Id, Fields>, mid: State, outcome: Outcome, s': State)
    requires BeginStep(s, p, mid) && !Terminal(s.parents[p].status)
    requires p in mid.parents && p in mid.locks
    requires Choices(mid, mid.parents[p], order, ids)
    requires outcome == Decide(accepts, p, mid.parents[p], mid.locks[p], order, ids, reuse)
    requires outcome.Fail? || outcome.Keep? || outcome.Complete? ==> ReuseExact(mid.rows, outcome.pass.created)
    requires s' == if outcome.Keep? || outcome.Complete?
      then RingAll(Settle(mid, p, outcome), Bells(outcome.pass.created)) else Settle(mid, p, outcome)
    ensures AdvanceTook(accepts, s, p, s')
  {
    hide Decide, Settle, BeginStep, SortAnswer;
    CopiesFound(mid.rows, outcome);
    assert Advanced(accepts, s, p, order, ids, reuse, mid, s');
  }

  /** What a worker writes after running a claimed step. */
  ghost predicate Recorded(accepts: Registry, m: State, r: nat, result: StepResult, s': State) {
    match result
    case Gate(data) => ParkStep(m, r, data, s')
    case Raised => FailRowStep(m, r, Running, s')
    case Done(outputs) =>
      exists f :: SucceedStep(m, r, Running, outputs, f) && AdvanceTook(accepts, f, m.rows[r].parent, s')
  }

  /** One more doorbell is rung: where the bells are, and which are still to ring. */
  lemma RingNext(all: multiset<nat>, left: multiset<nat>, before: multiset<nat>, queue: multiset<nat>,
                 rung: multiset<nat>, ids: multiset<nat>, todo: set<nat>, r: nat)
    requires left + rung == all && rung + multiset(todo) == ids && ids <= all && r in todo
    requires queue == before + rung
    ensures r in left && (left - multiset{r}) + (rung + multiset{r}) == all
    ensures (rung + multiset{r}) + multiset(todo - {r}) == ids
    ensures queue + multiset{r} == before + (rung + multiset{r})
  {
    assert left[r] + rung[r] == all[r] && rung[r] + multiset(todo)[r] == ids[r] && ids[r] <= all[r];
    assert multiset(todo) == multiset(todo - {r}) + multiset{r};
  }

  lemma RowHasParent(accepts: Registry, s: State, r: nat)
    requires Reachable(accepts, s) && r in s.rows
    ensures s.rows[r].parent in s.parents
  {
    ReachableSafe(accepts, s);
    assert RowTyped(s.parents, r, s.rows[r]);
  }

  lemma CopiesFound(rows: map<nat, Row>, outcome: Outcome)
    requires outcome.Fail? || outcome.Keep? || outcome.Complete? ==> ReuseExact(rows, outcome.pass.created)
    ensures outcome.Fail? || outcome.Keep? || outcome.Complete? ==> ReuseFound(rows, outcome.pass.created)
  {
  }
}

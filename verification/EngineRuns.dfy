/** Facts about whole runs of the engine: the row life cycle, single starts, finality. */
module EngineRuns {
  import opened Prelude
  import opened Graphs
  import opened Refs
  import opened Workflow
  import opened Engine
  import opened EngineSafety

  /** The run state machine of a step row. */
  predicate Legal(a: Status, b: Status) {
    || a == b
    || (a == Pending && (b == Running || b == Failed))
    || (a == Running && (b == Succeeded || b == Failed || b == Waiting))
    || (a == Waiting && b == Succeeded)
  }

  ghost predicate Evolves(rows: map<nat, Row>, rows': map<nat, Row>) {
    && (forall r :: r in rows ==>
          r in rows' && RowKept(rows[r], rows'[r]) && Legal(rows[r].status, rows'[r].status))
    && (forall r :: r in rows' && r !in rows ==>
          rows'[r].status == Pending || rows'[r].status == Succeeded)
  }

  lemma EvolvesGrows(rows: map<nat, Row>, rows': map<nat, Row>)
    requires Evolves(rows, rows')
    ensures RowsGrow(rows, rows')
  {
  }

  lemma CommitEvolves(accepts: Registry, s: State, p: nat, order: Option<seq<Id>>,
                      ids: map<Id, nat>, reuse: map<Id, Fields>, s': State)
    requires Safe(s) && CommitStep(accepts, s, p, order, ids, reuse, s')
    ensures Evolves(s.rows, s'.rows)
    ensures forall r :: r in s'.rows && r !in s.rows ==> s'.rows[r].parent == p
  {
    var outcome := Decide(accepts, p, s.parents[p], s.locks[p], order, ids, reuse);
    hide Decide, ReuseFound, RowsAdded, Evolves;
    if outcome.Fail? || outcome.Keep? || outcome.Complete? {
      DefinedUnlessRejected(accepts, s.parents[p], p, s.locks[p], order, ids, reuse);
      var job := OutcomeAdds(accepts, s, p, order, ids, reuse);
      hide Safe, Choices;
      AddedEvolves(s, p, outcome.pass, job);
      assert s'.rows == s.rows + outcome.pass.created;
    } else {
      hide Safe, Choices;
      assert s'.rows == s.rows;
      SameEvolves(s.rows);
    }
  }

  lemma SameEvolves(rows: map<nat, Row>)
    ensures Evolves(rows, rows)
  {
  }

  lemma AddedEvolves(s: State, p: nat, pass: Pass, job: Job)
    requires job.HasIds() && RowsAdded(s, p, pass, job)
    ensures Evolves(s.rows, s.rows + pass.created)
    ensures forall r :: r in pass.created ==> pass.created[r].parent == p
  {
    AddedGrow(s, p, pass, job);
    forall r | r in pass.created
      ensures pass.created[r].status == Pending || pass.created[r].status == Succeeded
      ensures pass.created[r].parent == p
    {
      NewRowFacts(s, p, pass, job, r);
    }
  }

  lemma MoveRowEvolves(s: State, r: nat, from: Status, to: Status, outputs: Fields, s': State)
    requires MoveRow(s, r, from, to, outputs, s') && Legal(from, to) && from != Succeeded
    ensures Evolves(s.rows, s'.rows)
  {
  }

  lemma FailRowEvolves(s: State, r: nat, from: Status, s': State)
    requires FailRowStep(s, r, from, s') && (from == Pending || from == Running)
    ensures Evolves(s.rows, s'.rows)
  {
  }

  /** The events that write no step row. */
  lemma QuietRows(accepts: Registry, s: State, e: Event, s': State)
    requires Step(accepts, s, e, s')
    requires !e.Commit? && !e.Claim? && !e.Finish? && !e.Park? && !e.Resume? && !e.ClaimUnknown?
          && !e.FailStep?
    ensures s'.rows == s.rows
    ensures forall p :: p in s.parents ==> p in s'.parents && s'.parents[p] == s.parents[p]
  {
    hide Read;
  }

  /** Every event moves rows along the state machine and never rewrites a succeeded row. */
  lemma StepEvolves(accepts: Registry, s: State, e: Event, s': State)
    requires Safe(s) && Step(accepts, s, e, s')
    ensures Evolves(s.rows, s'.rows)
  {
    hide Safe, Evolves, CommitStep, MoveRow, FailRowStep, SubmitStep, KickStep;
    hide BeginStep, AbortStep, LoseAdvanceStep, TrafficStep;
    match e
    case Commit(p, order, ids, reuse) => CommitEvolves(accepts, s, p, order, ids, reuse, s');
    case Claim(r) => MoveRowEvolves(s, r, Pending, Running, s.rows[r].outputs, s');
    case Finish(r, outputs) => MoveRowEvolves(s, r, Running, Succeeded, outputs, s');
    case Park(r, gate) => MoveRowEvolves(s, r, Running, Waiting, map["gate_data" := Obj(gate)], s');
    case Resume(r, outputs) => MoveRowEvolves(s, r, Waiting, Succeeded, outputs, s');
    case ClaimUnknown(r) => FailRowEvolves(s, r, Pending, s');
    case FailStep(r) => FailRowEvolves(s, r, Running, s');
    case _ => QuietRows(accepts, s, e, s'); SameEvolves(s.rows);
  }

  // ---- At-most-once start ----

  ghost function Starts(evs: seq<Event>, r: nat): nat {
    if evs == [] then 0
    else Starts(evs[..|evs| - 1], r) + if evs[|evs| - 1] == Claim(r) then 1 else 0
  }

  lemma ClaimStarts(accepts: Registry, s: State, r: nat, s': State)
    requires Step(accepts, s, Claim(r), s')
    ensures r in s.rows && s.rows[r].status == Pending
    ensures r in s'.rows && s'.rows[r].status == Running
  {
  }

  /** A row that is unborn or pending after an event was so before it, and was not started by it. */
  lemma PendingWasPending(accepts: Registry, s: State, e: Event, s': State, r: nat)
    requires Safe(s) && Step(accepts, s, e, s')
    requires r !in s'.rows || s'.rows[r].status == Pending
    ensures r !in s.rows || s.rows[r].status == Pending
    ensures e != Claim(r)
  {
    hide Safe, Step, RowKept;
    StepEvolves(accepts, s, e, s');
    if e == Claim(r) { ClaimStarts(accepts, s, r, s'); }
  }

  /**
   * At-most-once start: under duplicated, dropped, swept and retried messages, a row goes from
   * pending to running at most once, and a row that is still pending has never been started.
   */
  lemma {:induction false} StartsOnce(accepts: Registry, evs: seq<Event>, s: State, r: nat)
    requires Run(accepts, Init(), evs, s)
    ensures Starts(evs, r) <= 1
    ensures r !in s.rows || s.rows[r].status == Pending ==> Starts(evs, r) == 0
    decreases |evs|
  {
    if evs != [] {
      var n := |evs| - 1;
      var m :| Run(accepts, Init(), evs[..n], m) && Step(accepts, m, evs[n], s);
      RunSafe(accepts, Init(), evs[..n], m);
      StartsOnce(accepts, evs[..n], m, r);
      hide Safe, Run, Step;
      if evs[n] == Claim(r) { ClaimStarts(accepts, m, r, s); }
      if r !in s.rows || s.rows[r].status == Pending {
        PendingWasPending(accepts, m, evs[n], s, r);
      }
    }
  }

  // ---- Finality ----

  /** No child of a succeeded run can still fail. */
  lemma SucceededHasNoActiveChild(s: State, r: nat)
    requires Safe(s) && r in s.rows && s.rows[r].parent in s.parents
    requires s.parents[s.rows[r].parent].status == Succeeded
    ensures s.rows[r].status == Succeeded
  {
    var p := s.rows[r].parent;
    assert RowTyped(s.parents, r, s.rows[r]);
    assert AllStepsDone(s.rows, p, s.parents[p]);
    assert DoneChild(s.rows, p, s.rows[r].step);
    var q: nat :| DoneRow(s.rows, q, p, s.rows[r].step);
    assert SameSlot(s.rows[q], s.rows[r]);
  }

  ghost predicate Final(s: State, p: nat, s': State)
    requires p in s.parents
  {
    && p in s'.parents && s'.parents[p] == s.parents[p]
    && forall r: nat :: IsChild(s'.rows, r, p) ==> IsChild(s.rows, r, p)
  }

  /** A terminal run keeps its verdict and gains no children. */
  lemma StepFinal(accepts: Registry, s: State, e: Event, s': State, p: nat)
    requires Safe(s) && Step(accepts, s, e, s')
    requires p in s.parents && Terminal(s.parents[p].status)
    ensures Final(s, p, s')
  {
    hide Safe, MoveRow, FailRowStep, CommitStep, Final, SubmitStep, KickStep, BeginStep;
    hide AbortStep, LoseAdvanceStep, TrafficStep;
    match e
    case Commit(q, order, ids, reuse) => CommitFinal(accepts, s, q, order, ids, reuse, s', p);
    case ClaimUnknown(r) => FailRowFinal(s, r, Pending, s', p);
    case FailStep(r) => FailRowFinal(s, r, Running, s', p);
    case Claim(r) =>
      assert ClaimStep(s, r, s');
      MoveRowFinal(s, r, Pending, Running, s.rows[r].outputs, s', p);
    case Finish(r, outputs) => MoveRowFinal(s, r, Running, Succeeded, outputs, s', p);
    case Park(r, gate) => MoveRowFinal(s, r, Running, Waiting, map["gate_data" := Obj(gate)], s', p);
    case Resume(r, outputs) => MoveRowFinal(s, r, Waiting, Succeeded, outputs, s', p);
    case _ => QuietRows(accepts, s, e, s'); QuietFinal(s, s', p);
  }

  lemma QuietFinal(s: State, s': State, p: nat)
    requires s'.rows == s.rows && p in s.parents && p in s'.parents && s'.parents[p] == s.parents[p]
    ensures Final(s, p, s')
  {
  }

  lemma MoveRowFinal(s: State, r: nat, from: Status, to: Status, outputs: Fields, s': State, p: nat)
    requires MoveRow(s, r, from, to, outputs, s') && p in s.parents
    ensures Final(s, p, s')
  {
  }

  lemma CommitFinal(accepts: Registry, s: State, q: nat, order: Option<seq<Id>>, ids: map<Id, nat>,
                    reuse: map<Id, Fields>, s': State, p: nat)
    requires Safe(s) && CommitStep(accepts, s, q, order, ids, reuse, s')
    requires p in s.parents && Terminal(s.parents[p].status)
    ensures Final(s, p, s')
  {
    hide Safe, Decide, ReuseFound, Bells, SnapshotSound, Coherent, SortAnswer, Settle;
    LockedIsPending(s, q);
    CommitEvolves(accepts, s, q, order, ids, reuse, s');
    ChildrenStay(s.rows, s'.rows, q, p);
    SettleFinal(s, q, Decide(accepts, q, s.parents[q], s.locks[q], order, ids, reuse), p);
  }

  lemma ChildrenStay(rows: map<nat, Row>, rows': map<nat, Row>, q: nat, p: nat)
    requires Evolves(rows, rows') && p != q
    requires forall r :: r in rows' && r !in rows ==> rows'[r].parent == q
    ensures forall r: nat :: IsChild(rows', r, p) ==> IsChild(rows, r, p)
  {
    forall r: nat | IsChild(rows', r, p) ensures IsChild(rows, r, p) {
      assert r in rows && RowKept(rows[r], rows'[r]);
    }
  }

  lemma SettleFinal(s: State, q: nat, outcome: Outcome, p: nat)
    requires p in s.parents && q in s.parents && p != q
    ensures p in Settle(s, q, outcome).parents
    ensures Settle(s, q, outcome).parents[p] == s.parents[p]
  {
  }

  lemma FailRowFinal(s: State, r: nat, from: Status, s': State, p: nat)
    requires Safe(s) && FailRowStep(s, r, from, s') && !Terminal(from)
    requires p in s.parents && Terminal(s.parents[p].status)
    ensures Final(s, p, s')
  {
    hide Safe;
    if s.rows[r].parent == p && s.parents[p].status == Succeeded {
      SucceededHasNoActiveChild(s, r);
    }
  }

  /** Over any continuation, a finished run keeps its verdict and its set of children. */
  lemma {:induction false} RunFinal(accepts: Registry, s: State, evs: seq<Event>, s': State, p: nat)
    requires Safe(s) && Run(accepts, s, evs, s')
    requires p in s.parents && Terminal(s.parents[p].status)
    ensures Final(s, p, s')
    decreases |evs|
  {
    if evs != [] {
      var n := |evs| - 1;
      var m :| Run(accepts, s, evs[..n], m) && Step(accepts, m, evs[n], s');
      RunSafe(accepts, s, evs[..n], m);
      RunFinal(accepts, s, evs[..n], m, p);
      hide Safe, Step, Run;
      StepFinal(accepts, m, evs[n], s', p);
    }
  }
}

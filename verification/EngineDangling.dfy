/**
 * Definitions whose edges name unknown steps. Most do no harm; some mislead the sort, and a run of
 * one of those can fail but never succeed: its advances end where the loop meets the unknown step.
 */
module EngineDangling {
  import opened Prelude
  import opened Graphs
  import opened Refs
  import opened Workflow
  import opened Engine
  import opened EngineSafety
  import opened EngineRuns
  import opened EngineProgress
  import opened EngineTraps
  import opened Confluence
  import opened Agreement

  // ---- Which definitions mislead the sort ----

  /** A definition misleads exactly if its sorted list is long enough but leaves out a step. */
  lemma MisleadsIff(def: Definition, l: seq<Id>)
    requires KahnOrder(Ids(def.steps), def.edges, l)
    ensures Misleads(def) <==> |l| == |Ids(def.steps)| && exists x :: x in Ids(def.steps) && x !in l
  {
    var ids := Ids(def.steps);
    if Misleads(def) {
      var order, x :| SortAnswer(def, Some(order)) && x in order && x !in ids;
      KahnOrdersAgree(ids, def.edges, order, l);
      KahnSizesAgree(ids, def.edges, order, l);
      if forall y :: y in ids ==> y in l {
        EqualLengthPermutation(ids, l);
        assert false;
      }
    }
    if |l| == |ids| && exists x :: x in ids && x !in l {
      assert SortAnswer(def, Some(l));
      if forall y :: y in l ==> y in ids {
        EqualLengthPermutation(l, ids);
        assert false;
      }
    }
  }

  /** Without dangling edges no definition misleads. */
  lemma NoCrossingIsSafe(def: Definition)
    requires NoCrossing(Ids(def.steps), def.edges)
    ensures !Misleads(def)
  {
    if Misleads(def) {
      var order, x :| SortAnswer(def, Some(order)) && x in order && x !in Ids(def.steps);
      KahnDetectsCycles(Ids(def.steps), def.edges, order);
      KahnExactness(Ids(def.steps), def.edges, order);
      assert false;
    }
  }

  // ---- Children are steps that the sort lists ----

  ghost predicate ListedStep(def: Definition, x: Id) {
    exists order :: SortAnswer(def, Some(order)) && x in order
  }

  ghost predicate Listed(s: State) {
    forall r :: r in s.rows ==> RowListed(s.parents, s.rows[r])
  }

  ghost predicate RowListed(parents: map<nat, Parent>, row: Row) {
    row.parent in parents && parents[row.parent].def.Some? && ListedStep(parents[row.parent].def.value, row.step)
  }

  lemma StepListed(accepts: Registry, s: State, e: Event, s': State)
    requires Safe(s) && Listed(s) && Step(accepts, s, e, s')
    ensures Listed(s')
  {
    StepEvolves(accepts, s, e, s');
    StepParentsGrow(accepts, s, e, s');
    hide Safe, Step, ListedStep;
    forall r | r in s'.rows ensures RowListed(s'.parents, s'.rows[r]) {
      if r in s.rows {
        assert RowListed(s.parents, s.rows[r]) && RowKept(s.rows[r], s'.rows[r]);
      } else {
        OnlyCommitAdds(accepts, s, e, s', r);
        CommitListed(accepts, s, e.p, e.order, e.ids, e.reuse, s', r);
      }
    }
  }

  lemma CommitListed(accepts: Registry, s: State, p: nat, order: Option<seq<Id>>, ids: map<Id, nat>,
                     reuse: map<Id, Fields>, s': State, r: nat)
    requires Safe(s) && CommitStep(accepts, s, p, order, ids, reuse, s') && r in s'.rows && r !in s.rows
    requires ParentsGrow(s.parents, s'.parents)
    ensures RowListed(s'.parents, s'.rows[r])
  {
    hide Safe, CommitStep, RowsAdded, PassSourced;
    if order.None? { RejectAddsNothing(accepts, s, p, ids, reuse, s'); }
    var job, pass := CommitAdds(accepts, s, p, order.value, ids, reuse, s');
    SortedBy(accepts, s, p, order, ids, reuse, s');
    AddedTo(s, p, pass, job);
    AddedIsListed(s, p, job, pass, order.value, r);
  }

  lemma SortedBy(accepts: Registry, s: State, p: nat, order: Option<seq<Id>>, ids: map<Id, nat>,
                 reuse: map<Id, Fields>, s': State)
    requires CommitStep(accepts, s, p, order, ids, reuse, s')
    ensures s.parents[p].def.Some? ==> SortAnswer(s.parents[p].def.value, order)
  {
    hide Decide, Settle, SortAnswer;
  }

  lemma AddedTo(s: State, p: nat, pass: Pass, job: Job)
    requires job.HasIds() && RowsAdded(s, p, pass, job)
    ensures p in s.parents && s.parents[p].def == Some(job.def)
  {
  }

  lemma AddedIsListed(s: State, p: nat, job: Job, pass: Pass, order: seq<Id>, r: nat)
    requires job.HasIds() && RowsAdded(s, p, pass, job) && r in pass.created
    requires PassSourced(job, StartPass(s.locks[p]), pass, order) && SortAnswer(job.def, Some(order))
    ensures p in s.parents && s.parents[p].def == Some(job.def)
    ensures pass.created[r].parent == p && ListedStep(job.def, pass.created[r].step)
  {
    NewRowFacts(s, p, pass, job, r);
    assert RowSourced(job, StartPass(s.locks[p]), pass, order, pass.created[r]);
    hide SortAnswer, RowsAdded;
  }

  lemma {:induction false} RunListed(accepts: Registry, evs: seq<Event>, s: State)
    requires Run(accepts, Init(), evs, s)
    ensures Listed(s)
    decreases |evs|
  {
    if evs != [] {
      var n := |evs| - 1;
      var m := RunSplit(accepts, Init(), evs, s);
      RunListed(accepts, evs[..n], m);
      RunSafe(accepts, Init(), evs[..n], m);
      hide Safe, Listed, Run, Step;
      StepListed(accepts, m, evs[n], s);
    }
  }

  // ---- A misled run cannot succeed ----

  /** Some step of a misleading definition is in no sorted list. */
  lemma LeftOut(def: Definition) returns (x: Id)
    requires Misleads(def)
    ensures x in Ids(def.steps) && !ListedStep(def, x)
  {
    var order, y :| SortAnswer(def, Some(order)) && y in order && y !in Ids(def.steps);
    MisleadsIff(def, order);
    x :| x in Ids(def.steps) && x !in order;
    if ListedStep(def, x) {
      var other :| SortAnswer(def, Some(other)) && x in other;
      KahnOrdersAgree(Ids(def.steps), def.edges, order, other);
      assert false;
    }
  }

  /** A run whose definition misleads the sort never succeeds. */
  lemma MisledNeverSucceeds(accepts: Registry, evs: seq<Event>, s: State, p: nat)
    requires Run(accepts, Init(), evs, s) && p in s.parents
    requires s.parents[p].def.Some? && Misleads(s.parents[p].def.value)
    ensures s.parents[p].status != Succeeded
  {
    hide Run, Misleads, ListedStep;
    RunListed(accepts, evs, s);
    InitUpToDate(p);
    RunSafe(accepts, Init(), evs, s);
    if s.parents[p].status == Succeeded {
      assert AllStepsDone(s.rows, p, s.parents[p]);
      hide Safe;
      var x := LeftOut(s.parents[p].def.value);
      DoneIsListed(s, p, x);
    }
  }

  lemma DoneIsListed(s: State, p: nat, x: Id)
    requires Listed(s) && p in s.parents && s.parents[p].def.Some? && DoneChild(s.rows, p, x)
    ensures ListedStep(s.parents[p].def.value, x)
  {
    hide ListedStep;
    var r: nat :| DoneRow(s.rows, r, p, x);
    assert RowListed(s.parents, s.rows[r]);
  }

  /** Nothing is owed to the run, in flight for it, or active below it. */
  ghost predicate Quiescent(s: State, p: nat) {
    p !in s.owed && p !in s.locks && !HasActiveChild(s, p)
  }

  lemma EmptyNeverSucceeds(s: State, p: nat)
    requires Safe(s) && p in s.parents && s.parents[p].def.Some? && s.parents[p].def.value.steps == []
    ensures s.parents[p].status != Succeeded
  {
  }

  /**
   * Which definitions strand a run. When a run has come to rest without a crash in one of its own
   * advances, and without having failed, it is left pending, and stays so, exactly if its
   * definition has no steps or misleads the sort.
   */
  lemma StrandsIff(accepts: Registry, evs: seq<Event>, s: State, p: nat)
    requires Run(accepts, Init(), evs, s) && CrashFreeRun(evs, p)
    requires p in s.parents && s.parents[p].def.Some? && Quiescent(s, p) && s.parents[p].status != Failed
    ensures s.parents[p].status == Pending <==>
      s.parents[p].def.value.steps == [] || Misleads(s.parents[p].def.value)
    ensures s.parents[p].status == Pending ==> Trapped(s, p)
  {
    hide Run, Misleads, CrashFreeRun, HasActiveChild;
    InitUpToDate(p);
    RunSafe(accepts, Init(), evs, s);
    assert ParentStatuses(s);
    if s.parents[p].def.value.steps == [] { EmptyNeverSucceeds(s, p); }
    hide Safe;
    if Misleads(s.parents[p].def.value) {
      MisledNeverSucceeds(accepts, evs, s, p);
    } else if s.parents[p].def.value.steps != [] && s.parents[p].status == Pending {
      NoStall(accepts, evs, s, p);
      assert false;
    }
  }

  // ---- Where the advances of a misled run end ----

  /** The loop will meet `y`, which is no step, with all of its predecessors done. */
  ghost predicate Faces(s: State, p: nat, y: Id) {
    && p in s.parents && s.parents[p].def.Some?
    && var def := s.parents[p].def.value;
    && y !in Ids(def.steps) && ListedStep(def, y) && PredsDone(s.rows, def.edges, p, y)
    && (p in s.locks ==> Ready(def.edges, y, s.locks[p].status))
  }

  /** A loop that reaches a ready unknown step does not complete. */
  lemma {:induction false} NeverContinues(accepts: Registry, job: Job, reuse: map<Id, Fields>, snap: Snapshot,
                                          order: seq<Id>, y: Id)
    requires job.HasIds() && Injective(job.ids) && Coherent(snap)
    requires y in order && y !in Ids(job.def.steps) && y !in snap.status && Ready(job.def.edges, y, snap.status)
    ensures !RunPass(accepts, job, reuse, StartPass(snap), order).Continue?
  {
    var n := |order| - 1;
    assert order == order[..n] + [order[n]];
    if y in order[..n] {
      NeverContinues(accepts, job, reuse, snap, order[..n], y);
    } else {
      PassExtends(accepts, job, reuse, snap, order[..n]);
      var v := RunPass(accepts, job, reuse, StartPass(snap), order[..n]);
      if v.Continue? {
        StillReady(job, snap, v.pass, y);
        hide Extends, Ready, Coherent;
        assert Visit(accepts, job, reuse, v.pass, y).Raise?;
      }
    }
  }

  lemma StillReady(job: Job, snap: Snapshot, pass: Pass, y: Id)
    requires job.HasIds() && Extends(job, snap, pass)
    requires y !in Ids(job.def.steps) && y !in snap.status && Ready(job.def.edges, y, snap.status)
    ensures y !in pass.status && Ready(job.def.edges, y, pass.status)
  {
    assert y in pass.status ==> IsNewChild(job, pass, y);
  }

  /** Every advance of the run rolls back or fails it. */
  lemma MetByCommit(accepts: Registry, s: State, p: nat, order: Option<seq<Id>>, ids: map<Id, nat>,
                    reuse: map<Id, Fields>, y: Id)
    requires Safe(s) && Faces(s, p, y) && p in s.locks && Choices(s, s.parents[p], order, ids)
    ensures var outcome := Decide(accepts, p, s.parents[p], s.locks[p], order, ids, reuse);
      outcome.Quit? || outcome.Reject? || outcome.Fail?
  {
    var def, snap := s.parents[p].def.value, s.locks[p];
    LockedIsPending(s, p);
    UnknownHasNoChild(s, p, y);
    assert y !in snap.status;
    FreshIdsFacts(s, def, ids);
    hide Safe, SnapshotSound, Coherent, FreshIds, Ready, PredsDone, Injective, Decide;
    ListedAgain(def, order, y);
    hide SortAnswer, ListedStep;
    MetDecision(accepts, p, s.parents[p], snap, order, ids, reuse, y);
  }

  lemma ListedAgain(def: Definition, order: Option<seq<Id>>, y: Id)
    requires SortAnswer(def, order) && ListedStep(def, y)
    ensures order.Some? ==> y in order.value
  {
    var l :| SortAnswer(def, Some(l)) && y in l;
    hide KahnOrder;
    if order.Some? { KahnOrdersAgree(Ids(def.steps), def.edges, l, order.value); }
  }

  lemma MetDecision(accepts: Registry, p: nat, parent: Parent, snap: Snapshot, order: Option<seq<Id>>,
                    ids: map<Id, nat>, reuse: map<Id, Fields>, y: Id)
    requires parent.def.Some? && JobOf(p, parent, ids).HasIds() && Injective(ids) && Coherent(snap)
    requires order.Some? ==> y in order.value
    requires y !in Ids(parent.def.value.steps) && y !in snap.status && Ready(parent.def.value.edges, y, snap.status)
    ensures var outcome := Decide(accepts, p, parent, snap, order, ids, reuse);
      outcome.Quit? || outcome.Reject? || outcome.Fail?
  {
    hide RunPass, Injective, Coherent, Ready, AllSucceeded, Ids;
    if order.Some? {
      NeverContinues(accepts, JobOf(p, parent, ids), reuse, snap, order.value, y);
    }
  }

  lemma UnknownHasNoChild(s: State, p: nat, y: Id)
    requires Safe(s) && p in s.parents && s.parents[p].def.Some? && y !in Ids(s.parents[p].def.value.steps)
    ensures !HasChild(s.rows, p, y)
  {
    hide Safe;
    if r: nat :| IsChild(s.rows, r, p) && s.rows[r].step == y {
      ChildIsStep(s, r);
    }
  }

  lemma ChildIsStep(s: State, r: nat)
    requires Safe(s) && r in s.rows
    ensures s.rows[r].parent in s.parents && s.parents[s.rows[r].parent].def.Some?
    ensures s.rows[r].step in Ids(s.parents[s.rows[r].parent].def.value.steps)
  {
    assert RowTyped(s.parents, r, s.rows[r]);
  }

  ghost predicate NoNewChild(s: State, p: nat, s': State) {
    forall r: nat :: IsChild(s'.rows, r, p) ==> IsChild(s.rows, r, p)
  }

  /** A run's children are added by its own advances only. */
  lemma OwnAdvanceAdds(accepts: Registry, s: State, e: Event, s': State, p: nat)
    requires Safe(s) && Step(accepts, s, e, s') && !(e.Commit? && e.p == p)
    ensures NoNewChild(s, p, s')
  {
    StepEvolves(accepts, s, e, s');
    hide Safe, Step, CommitStep;
    forall r: nat | IsChild(s'.rows, r, p) ensures IsChild(s.rows, r, p) {
      if r !in s.rows {
        OnlyCommitAdds(accepts, s, e, s', r);
        CommitEvolves(accepts, s, e.p, e.order, e.ids, e.reuse, s');
      } else {
        assert RowKept(s.rows[r], s'.rows[r]);
      }
    }
  }

  /** A run's record changes only by its own advance or by failing. */
  lemma RecordStep(accepts: Registry, s: State, e: Event, s': State, p: nat)
    requires Step(accepts, s, e, s') && p in s.parents && !(e.Commit? && e.p == p)
    ensures p in s'.parents && (s'.parents[p] == s.parents[p] || s'.parents[p].status == Failed)
  {
    if e.Commit? {
      CommitTaken(accepts, s, e, s');
      hide Step, CommitStep;
      CommitOthers(accepts, s, e.p, e.order, e.ids, e.reuse, s');
    } else if e.ClaimUnknown? || e.FailStep? {
      FailRecords(accepts, s, e, s', p);
    } else if e.Claim? || e.Finish? || e.Resume? || e.Park? {
      RowRecords(accepts, s, e, s');
    } else {
      hide Step;
      QuietRows(accepts, s, e, s');
    }
  }

  lemma FailRecords(accepts: Registry, s: State, e: Event, s': State, p: nat)
    requires Step(accepts, s, e, s') && p in s.parents && (e.ClaimUnknown? || e.FailStep?)
    ensures p in s'.parents && (s'.parents[p] == s.parents[p] || s'.parents[p].status == Failed)
  {
  }

  lemma RowRecords(accepts: Registry, s: State, e: Event, s': State)
    requires Step(accepts, s, e, s') && (e.Claim? || e.Finish? || e.Resume? || e.Park?)
    ensures s'.parents == s.parents
  {
  }

  lemma LockStep(accepts: Registry, s: State, e: Event, s': State, p: nat, y: Id)
    requires Safe(s) && Faces(s, p, y) && Step(accepts, s, e, s') && p in s'.locks
    ensures Ready(s.parents[p].def.value.edges, y, s'.locks[p].status)
  {
    assert Unique(s.rows);
    hide Safe, Ready;
    if e == Begin(p) {
      OnlyBegin(accepts, s, e, s');
      hide Step, Unique, Read, PredsDone;
      if s'.locks[p] == Read(s.rows, p) { ReadFaces(s, p, y); }
    } else if e.Begin? {
      OnlyBegin(accepts, s, e, s');
    } else {
      LocksKept(accepts, s, e, s');
    }
  }

  lemma ReadFaces(s: State, p: nat, y: Id)
    requires Unique(s.rows) && p in s.parents && s.parents[p].def.Some?
    requires PredsDone(s.rows, s.parents[p].def.value.edges, p, y)
    ensures Ready(s.parents[p].def.value.edges, y, Read(s.rows, p).status)
  {
    var edges, status := s.parents[p].def.value.edges, Read(s.rows, p).status;
    hide Unique;
    forall e | e in edges && e.dst == y ensures e.src in status && status[e.src] == Succeeded {
      assert DoneChild(s.rows, p, e.src);
      var q: nat :| DoneRow(s.rows, q, p, e.src);
      hide Read;
      ReadIsExact(s.rows, p, q);
    }
  }

  lemma FacesStep(accepts: Registry, s: State, e: Event, s': State, p: nat, y: Id)
    requires Safe(s) && Faces(s, p, y) && Step(accepts, s, e, s') && s.parents[p].status == Pending
    ensures p in s'.parents && (s'.parents[p].status == Pending || s'.parents[p].status == Failed)
    ensures s'.parents[p].status == Pending ==> Faces(s', p, y) && NoNewChild(s, p, s')
  {
    hide Safe, ListedStep, Ready, PredsDone;
    if e.Commit? && e.p == p {
      CommitTaken(accepts, s, e, s');
      MetByCommit(accepts, s, p, e.order, e.ids, e.reuse, y);
      hide Step, Faces, Choices, Decide, ReuseFound;
      SettleMet(s, p, Decide(accepts, p, s.parents[p], s.locks[p], e.order, e.ids, e.reuse));
    } else {
      RecordStep(accepts, s, e, s', p);
      OwnAdvanceAdds(accepts, s, e, s', p);
    }
    StepEvolves(accepts, s, e, s');
    EvolvesGrows(s.rows, s'.rows);
    PredsStay(s.rows, s'.rows, s.parents[p].def.value.edges, p, y);
    if p in s'.locks { LockStep(accepts, s, e, s', p, y); }
  }

  lemma SettleMet(s: State, p: nat, outcome: Outcome)
    requires p in s.parents && s.parents[p].status == Pending && (outcome.Quit? || outcome.Reject? || outcome.Fail?)
    ensures var s' := Settle(s, p, outcome);
      && p in s'.parents && (s'.parents[p] == s.parents[p] || s'.parents[p].status == Failed)
      && (s'.parents[p].status == Pending ==> s'.rows == s.rows)
  {
  }

  /**
   * Once the predecessors of an unknown listed step are done, every advance of the run ends there:
   * over every continuation, crashes and unowed advances included, it never succeeds and gets no
   * further child unless it fails.
   */
  lemma {:induction false} FacesForGood(accepts: Registry, s: State, evs: seq<Event>, s': State, p: nat, y: Id)
    requires Safe(s) && Faces(s, p, y) && s.parents[p].status == Pending && Run(accepts, s, evs, s')
    ensures p in s'.parents && (s'.parents[p].status == Pending || s'.parents[p].status == Failed)
    ensures s'.parents[p].status == Pending ==> Faces(s', p, y) && NoNewChild(s, p, s')
    decreases |evs|
  {
    assert p in s.parents;
    hide Safe, Step, Faces;
    if evs == [] {
      RunNothing(accepts, s, s');
    } else {
      var n := |evs| - 1;
      var m := RunSplit(accepts, s, evs, s');
      FacesForGood(accepts, s, evs[..n], m, p, y);
      RunSafe(accepts, s, evs[..n], m);
      hide Run;
      if m.parents[p].status == Pending {
        FacesStep(accepts, m, evs[n], s', p, y);
      } else {
        StepFinal(accepts, m, evs[n], s', p);
      }
    }
  }
}

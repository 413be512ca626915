/**
 * Progress: as long as no worker dies inside an advance, a live workflow always has something
 * left to happen. Messages may still be lost or duplicated, and children may fail or wait.
 */
module EngineProgress {
  import opened Prelude
  import opened Graphs
  import opened Refs
  import opened Workflow
  import opened Engine
  import opened EngineSafety

  /** No advance of run `p` is lost before it starts or rolled back by a crash. */
  predicate CrashFree(e: Event, p: nat) {
    e != Abort(p) && e != LoseAdvance(p)
  }

  ghost predicate CrashFreeRun(evs: seq<Event>, p: nat) {
    forall i :: 0 <= i < |evs| ==> CrashFree(evs[i], p)
  }

  /** The length test takes the sorted list for an order of the steps although it lists an unknown one. */
  ghost predicate Misleads(def: Definition) {
    exists order, x :: SortAnswer(def, Some(order)) && x in order && x !in Ids(def.steps)
  }

  ghost predicate Live(s: State, p: nat) {
    && p in s.parents && s.parents[p].status == Pending && s.parents[p].def.Some?
    && !Misleads(s.parents[p].def.value)
  }

  /** Whatever has succeeded is in the snapshot, and gates that waited are still waiting. */
  ghost predicate Current(rows: map<nat, Row>, p: nat, snap: Snapshot) {
    forall r: nat :: IsChild(rows, r, p) ==>
      && (rows[r].status == Succeeded ==>
            rows[r].step in snap.status && snap.status[rows[r].step] == Succeeded)
      && (rows[r].step in snap.status && snap.status[rows[r].step] == Waiting ==>
            rows[r].status == Waiting)
  }

  ghost predicate HasWaiting(rows: map<nat, Row>, p: nat) {
    exists r: nat :: IsChild(rows, r, p) && rows[r].status == Waiting
  }

  /** Every step whose predecessors have all succeeded has a child. */
  ghost predicate Closed(rows: map<nat, Row>, p: nat, def: Definition) {
    forall x :: x in Ids(def.steps) && PredsDone(rows, def.edges, p, x) ==> HasChild(rows, p, x)
  }

  ghost predicate Sortable(def: Definition) {
    exists order :: SortAnswer(def, Some(order))
  }

  ghost predicate Settled(rows: map<nat, Row>, p: nat, parent: Parent)
    requires parent.def.Some?
  {
    && Sortable(parent.def.value)
    && (HasWaiting(rows, p) || (Closed(rows, p, parent.def.value) && !AllStepsDone(rows, p, parent)))
  }

  /** If nobody owes this run an advance, then the last one left nothing undone. */
  ghost predicate UpToDate(s: State, p: nat) {
    Live(s, p) && p !in s.owed ==>
      if p in s.locks then Current(s.rows, p, s.locks[p])
      else Settled(s.rows, p, s.parents[p])
  }

  // ---- Frames ----

  /** The children of `p` are the same rows in both tables. */
  ghost predicate SameChildren(rows: map<nat, Row>, rows': map<nat, Row>, p: nat) {
    forall r: nat :: (IsChild(rows, r, p) <==> IsChild(rows', r, p))
                     && (IsChild(rows, r, p) ==> rows[r] == rows'[r])
  }

  lemma SameDone(rows: map<nat, Row>, rows': map<nat, Row>, p: nat)
    requires SameChildren(rows, rows', p)
    ensures forall x :: DoneChild(rows, p, x) <==> DoneChild(rows', p, x)
    ensures forall x :: HasChild(rows, p, x) <==> HasChild(rows', p, x)
    ensures HasWaiting(rows, p) <==> HasWaiting(rows', p)
  {
    forall x ensures DoneChild(rows, p, x) <==> DoneChild(rows', p, x) {
      if r: nat :| DoneRow(rows, r, p, x) { assert IsChild(rows, r, p) && DoneRow(rows', r, p, x); }
      if r: nat :| DoneRow(rows', r, p, x) { assert IsChild(rows', r, p) && DoneRow(rows, r, p, x); }
    }
    forall x ensures HasChild(rows, p, x) <==> HasChild(rows', p, x) {
      if r: nat :| IsChild(rows, r, p) && rows[r].step == x { assert IsChild(rows', r, p); }
      if r: nat :| IsChild(rows', r, p) && rows'[r].step == x { assert IsChild(rows, r, p); }
    }
  }

  lemma SameSettled(rows: map<nat, Row>, rows': map<nat, Row>, p: nat, parent: Parent)
    requires SameChildren(rows, rows', p) && parent.def.Some?
    ensures Settled(rows, p, parent) ==> Settled(rows', p, parent)
  {
    SameDone(rows, rows', p);
    forall x | PredsDone(rows', parent.def.value.edges, p, x)
      ensures PredsDone(rows, parent.def.value.edges, p, x)
    {
    }
  }

  /** Nothing about run `p` changed, except perhaps that more advances are owed to it. */
  lemma FrameUpToDate(s: State, s': State, p: nat)
    requires UpToDate(s, p) && p in s.parents && p in s'.parents && s'.parents[p] == s.parents[p]
    requires SameChildren(s.rows, s'.rows, p)
    requires p in s.owed ==> p in s'.owed
    requires p in s.locks <==> p in s'.locks
    requires p in s.locks ==> s'.locks[p] == s.locks[p]
    ensures UpToDate(s', p)
  {
    if Live(s', p) && p !in s'.owed {
      SameSettled(s.rows, s'.rows, p, s.parents[p]);
      forall r: nat | IsChild(s'.rows, r, p) ensures IsChild(s.rows, r, p) && s.rows[r] == s'.rows[r] {}
    }
  }

  /** One child changed its status, but neither to nor from succeeded, and not from waiting. */
  ghost predicate QuietMove(rows: map<nat, Row>, r: nat, rows': map<nat, Row>) {
    && r in rows && rows'.Keys == rows.Keys && SameSlot(rows[r], rows'[r])
    && (forall q :: q in rows && q != r ==> rows'[q] == rows[q])
    && rows[r].status != Succeeded && rows'[r].status != Succeeded && rows[r].status != Waiting
  }

  lemma QuietMoveDone(rows: map<nat, Row>, r: nat, rows': map<nat, Row>, p: nat)
    requires QuietMove(rows, r, rows')
    ensures forall x :: DoneChild(rows, p, x) <==> DoneChild(rows', p, x)
    ensures forall x :: HasChild(rows, p, x) <==> HasChild(rows', p, x)
    ensures HasWaiting(rows, p) ==> HasWaiting(rows', p)
  {
    forall x ensures DoneChild(rows, p, x) <==> DoneChild(rows', p, x) {
      if q: nat :| DoneRow(rows, q, p, x) { assert DoneRow(rows', q, p, x); }
      if q: nat :| DoneRow(rows', q, p, x) { assert q in rows.Keys && DoneRow(rows, q, p, x); }
    }
    forall x ensures HasChild(rows, p, x) <==> HasChild(rows', p, x) {
      if q: nat :| IsChild(rows, q, p) && rows[q].step == x { assert q in rows'.Keys && IsChild(rows', q, p); }
      if q: nat :| IsChild(rows', q, p) && rows'[q].step == x { assert q in rows.Keys && IsChild(rows, q, p); }
    }
    if q: nat :| IsChild(rows, q, p) && rows[q].status == Waiting {
      assert q in rows'.Keys && IsChild(rows', q, p) && rows'[q].status == Waiting;
    }
  }

  lemma QuietMoveSettled(rows: map<nat, Row>, r: nat, rows': map<nat, Row>, p: nat, parent: Parent)
    requires QuietMove(rows, r, rows') && parent.def.Some? && Settled(rows, p, parent)
    ensures Settled(rows', p, parent)
  {
    QuietMoveDone(rows, r, rows', p);
    forall x | PredsDone(rows', parent.def.value.edges, p, x)
      ensures PredsDone(rows, parent.def.value.edges, p, x)
    {
    }
  }

  lemma QuietMoveCurrent(rows: map<nat, Row>, r: nat, rows': map<nat, Row>, p: nat, snap: Snapshot)
    requires QuietMove(rows, r, rows') && Current(rows, p, snap)
    ensures Current(rows', p, snap)
  {
    forall q: nat | IsChild(rows', q, p) ensures IsChild(rows, q, p) {
      assert q in rows.Keys;
    }
  }

  lemma QuietMoveUpToDate(s: State, r: nat, s': State, p: nat)
    requires UpToDate(s, p) && QuietMove(s.rows, r, s'.rows)
    requires s'.parents == s.parents && s'.locks == s.locks && s'.owed == s.owed
    ensures UpToDate(s', p)
  {
    hide Settled, Current, QuietMove;
    if Live(s', p) && p !in s'.owed {
      if p in s'.locks {
        QuietMoveCurrent(s.rows, r, s'.rows, p, s.locks[p]);
      } else {
        QuietMoveSettled(s.rows, r, s'.rows, p, s.parents[p]);
      }
    }
  }

  /** Runs other than `p` kept their status, children and lock, and lost no owed advance. */
  ghost predicate OthersSame(s: State, p: nat, s': State) {
    && s'.parents.Keys == s.parents.Keys
    && forall q :: q in s.parents && q != p ==>
         && s'.parents[q] == s.parents[q] && SameChildren(s.rows, s'.rows, q)
         && (q in s.owed ==> q in s'.owed) && (q in s.locks <==> q in s'.locks)
         && (q in s.locks ==> s'.locks[q] == s.locks[q])
  }

  lemma ElsewhereUpToDate(s: State, q: nat, s': State, p: nat)
    requires UpToDate(s, p) && OthersSame(s, q, s') && p != q
    ensures UpToDate(s', p)
  {
    if p in s'.parents {
      assert p in s.parents.Keys;
      hide SameChildren, UpToDate;
      FrameUpToDate(s, s', p);
    }
  }

  lemma OneRowElsewhere(rows: map<nat, Row>, r: nat, row: Row, q: nat)
    requires r in rows && SameSlot(rows[r], row) && rows[r].parent != q
    ensures SameChildren(rows, rows[r := row], q)
  {
  }

  // ---- The events ----

  lemma SucceedUpToDate(s: State, r: nat, from: Status, outputs: Fields, s': State, p: nat)
    requires UpToDate(s, p) && SucceedStep(s, r, from, outputs, s')
    ensures UpToDate(s', p)
  {
    var q, row := s.rows[r].parent, s.rows[r].(status := Succeeded, outputs := outputs);
    if q != p {
      OneRowElsewhere(s.rows, r, row, p);
      hide SameChildren, UpToDate;
      if p in s.parents { FrameUpToDate(s, s', p); } else { Absent(s', p); }
    }
  }

  lemma Absent(s: State, p: nat)
    requires p !in s.parents
    ensures UpToDate(s, p)
  {
  }

  lemma FailRowUpToDate(s: State, r: nat, from: Status, s': State, p: nat)
    requires UpToDate(s, p) && FailRowStep(s, r, from, s')
    ensures UpToDate(s', p)
  {
    var q, row := s.rows[r].parent, s.rows[r].(status := Failed);
    if q != p {
      OneRowElsewhere(s.rows, r, row, p);
      hide SameChildren, UpToDate;
      if p in s.parents { FrameUpToDate(s, s', p); } else { Absent(s', p); }
    }
  }

  lemma BeginUpToDate(s: State, q: nat, s': State, p: nat)
    requires Unique(s.rows) && UpToDate(s, p) && BeginStep(s, q, s')
    ensures UpToDate(s', p)
  {
    hide Unique, Read, Current, OthersSame, Settled;
    if p == q {
      ReadIsCurrent(s.rows, p);
    } else {
      BeginOthers(s, q, s');
      hide UpToDate, BeginStep;
      ElsewhereUpToDate(s, q, s', p);
    }
  }

  lemma BeginOthers(s: State, p: nat, s': State)
    requires BeginStep(s, p, s')
    ensures OthersSame(s, p, s')
  {
    hide Read;
  }

  lemma ReadIsCurrent(rows: map<nat, Row>, p: nat)
    requires Unique(rows)
    ensures Current(rows, p, Read(rows, p))
  {
    hide Read, Unique;
    forall r: nat | IsChild(rows, r, p)
      ensures var snap, row := Read(rows, p), rows[r];
              row.step in snap.status && snap.status[row.step] == row.status
    {
      ReadIsExact(rows, p, r);
    }
  }

  lemma SubmitUpToDate(s: State, q: nat, def: Option<Definition>, params: Fields, s': State, p: nat)
    requires UpToDate(s, p) && SubmitStep(s, q, def, params, s')
    ensures UpToDate(s', p)
  {
    hide Settled, Current;
  }

  lemma OwedGrowsUpToDate(s: State, s': State, p: nat)
    requires UpToDate(s, p) && s'.rows == s.rows && s'.parents == s.parents && s'.locks == s.locks
    requires p in s.owed ==> p in s'.owed
    ensures UpToDate(s', p)
  {
    hide Settled, Current;
  }

  lemma UnlockUpToDate(s: State, q: nat, s': State, p: nat)
    requires UpToDate(s, p) && AbortStep(s, q, s') && p != q
    ensures UpToDate(s', p)
  {
    hide Settled, Current;
  }

  // ---- The commit of an advance ----

  /** With a current snapshot, the dictionary of the pass and the table agree on what is done. */
  lemma DoneIsInPass(s: State, p: nat, pass: Pass, job: Job, x: Id)
    requires job.HasIds() && RowsAdded(s, p, pass, job) && Current(s.rows, p, s.locks[p])
    requires DoneChild(s.rows + pass.created, p, x)
    ensures x in pass.status && pass.status[x] == Succeeded
  {
    var rows' := s.rows + pass.created;
    var r: nat :| DoneRow(rows', r, p, x);
    if r in pass.created {
      NewRowFacts(s, p, pass, job, r);
    } else {
      assert IsChild(s.rows, r, p);
    }
  }

  lemma PassStepHasChild(s: State, p: nat, pass: Pass, job: Job, x: Id)
    requires job.HasIds() && RowsAdded(s, p, pass, job) && x in pass.status
    ensures HasChild(s.rows + pass.created, p, x)
  {
    var rows' := s.rows + pass.created;
    if x in s.locks[p].status {
      var r: nat :| IsChild(s.rows, r, p) && s.rows[r].step == x;
      AddedGrow(s, p, pass, job);
      assert IsChild(rows', r, p) && rows'[r].step == x;
    } else {
      assert IsNewChild(job, pass, x);
      assert IsChild(rows', job.ids[x], p);
    }
  }

  /** An advance that ran to the end of its loop on a current snapshot leaves the run settled. */
  lemma PassSettles(s: State, p: nat, pass: Pass, job: Job, order: seq<Id>)
    requires job.HasIds() && RowsAdded(s, p, pass, job) && Current(s.rows, p, s.locks[p])
    requires ClosedOn(job.def.edges, pass.status, order)
    requires forall x :: x in Ids(job.def.steps) ==> x in order
    requires !AllSucceeded(job.def, pass.status) && Sortable(job.def)
    ensures Settled(s.rows + pass.created, p, s.parents[p])
  {
    var rows' := s.rows + pass.created;
    forall x | x in Ids(job.def.steps) && PredsDone(rows', job.def.edges, p, x)
      ensures HasChild(rows', p, x)
    {
      forall e | e in job.def.edges && e.dst == x
        ensures e.src in pass.status && pass.status[e.src] == Succeeded
      {
        DoneIsInPass(s, p, pass, job, e.src);
      }
      assert Ready(job.def.edges, x, pass.status);
      PassStepHasChild(s, p, pass, job, x);
    }
    if AllStepsDone(rows', p, s.parents[p]) {
      forall x | x in Ids(job.def.steps) ensures x in pass.status && pass.status[x] == Succeeded {
        DoneIsInPass(s, p, pass, job, x);
      }
      assert false;
    }
  }

  /** A list that passes the length test and names no unknown step covers the steps. */
  lemma OrderCovers(def: Definition, order: seq<Id>)
    requires SortAnswer(def, Some(order)) && !Misleads(def)
    ensures NoDup(order)
    ensures forall x :: x in order <==> x in Ids(def.steps)
    ensures forall i :: 0 <= i < |order| ==> PredsIn(def.edges, order[i], order[..i])
  {
    EqualLengthPermutation(order, Ids(def.steps));
  }

  lemma {:induction false} NeverRaises(accepts: Registry, job: Job, reuse: map<Id, Fields>, start: Pass,
                                       order: seq<Id>)
    requires job.HasIds() && forall x :: x in order ==> x in Ids(job.def.steps)
    ensures !RunPass(accepts, job, reuse, start, order).Raise?
  {
    if order != [] {
      NeverRaises(accepts, job, reuse, start, order[..|order| - 1]);
    }
  }

  /** An advance that stops at a gate leaves that gate's child waiting. */
  lemma GateStillWaits(s: State, p: nat)
    requires LocksSound(s) && p in s.locks && Current(s.rows, p, s.locks[p])
    requires Waiting in s.locks[p].status.Values
    ensures HasWaiting(s.rows, p)
  {
    var snap := s.locks[p];
    var x :| x in snap.status && snap.status[x] == Waiting;
    assert HasChild(s.rows, p, x);
    var r: nat :| IsChild(s.rows, r, p) && s.rows[r].step == x;
  }

  /** The run whose advance just committed, if nothing new became due meanwhile. */
  lemma CommittedUpToDate(accepts: Registry, s: State, p: nat, order: Option<seq<Id>>,
                          ids: map<Id, nat>, reuse: map<Id, Fields>, s': State)
    requires Safe(s) && UpToDate(s, p) && CommitStep(accepts, s, p, order, ids, reuse, s')
    ensures UpToDate(s', p)
  {
    var parent, snap := s.parents[p], s.locks[p];
    var outcome := Decide(accepts, p, parent, snap, order, ids, reuse);
    if Live(s', p) && p !in s'.owed && !outcome.Reject? {
      LockedIsPending(s, p);
      assert LocksSound(s);
      DefinedUnlessRejected(accepts, parent, p, snap, order, ids, reuse);
      var job := OutcomeAdds(accepts, s, p, order, ids, reuse);
      assert Live(s, p) && Current(s.rows, p, snap);
      OutcomeSettles(accepts, s, p, order.value, reuse, job);
    }
  }

  lemma OutcomeSettles(accepts: Registry, s: State, p: nat, order: seq<Id>,
                       reuse: map<Id, Fields>, job: Job)
    requires LocksSound(s) && Live(s, p) && p in s.locks && Current(s.rows, p, s.locks[p])
    requires job == JobOf(p, s.parents[p], job.ids) && job.HasIds()
    requires SortAnswer(job.def, Some(order))
    requires var outcome := Decide(accepts, p, s.parents[p], s.locks[p], Some(order), job.ids, reuse);
             outcome.Keep? ==> RowsAdded(s, p, outcome.pass, job)
    ensures var outcome := Decide(accepts, p, s.parents[p], s.locks[p], Some(order), job.ids, reuse);
            && (outcome.Quit? ==> Settled(s.rows, p, s.parents[p]))
            && (outcome.Keep? ==> Settled(s.rows + outcome.pass.created, p, s.parents[p]))
  {
    var snap := s.locks[p];
    assert Sortable(job.def);
    OrderCovers(job.def, order);
    NeverRaises(accepts, job, reuse, StartPass(snap), order);
    PassCloses(accepts, job, reuse, StartPass(snap), order);
    var outcome := Decide(accepts, p, s.parents[p], snap, Some(order), job.ids, reuse);
    hide RunPass, SortAnswer, RowsAdded, Current, Live, LocksSound, HasWaiting, ClosedOn;
    if outcome.Quit? {
      GateStillWaits(s, p);
    } else if outcome.Keep? {
      PassSettles(s, p, outcome.pass, job, order);
    }
  }

  lemma SettleElsewhere(s: State, p: nat, outcome: Outcome, job: Job, q: nat)
    requires p in s.parents && q != p
    requires outcome.Fail? || outcome.Keep? || outcome.Complete? ==>
      job.HasIds() && RowsAdded(s, p, outcome.pass, job)
    ensures SameChildren(s.rows, Settle(s, p, outcome).rows, q)
  {
    if outcome.Fail? || outcome.Keep? || outcome.Complete? {
      AddedGrow(s, p, outcome.pass, job);
      forall r | r in outcome.pass.created ensures outcome.pass.created[r].parent == p {
        NewRowFacts(s, p, outcome.pass, job, r);
      }
    }
  }

  lemma CommitUpToDate(accepts: Registry, s: State, q: nat, order: Option<seq<Id>>,
                       ids: map<Id, nat>, reuse: map<Id, Fields>, s': State, p: nat)
    requires Safe(s) && UpToDate(s, p) && CommitStep(accepts, s, q, order, ids, reuse, s')
    ensures UpToDate(s', p)
  {
    hide Safe, UpToDate, SameChildren, ReuseFound, Decide, Settle, SortAnswer;
    if p == q {
      CommittedUpToDate(accepts, s, p, order, ids, reuse, s');
    } else {
      var outcome := Decide(accepts, q, s.parents[q], s.locks[q], order, ids, reuse);
      forall x | x in s.parents && x != q ensures SameChildren(s.rows, s'.rows, x) {
        CommitElsewhere(accepts, s, q, order, ids, reuse, s', x);
      }
      SettleOthers(s, q, outcome, s');
      hide CommitStep;
      ElsewhereUpToDate(s, q, s', p);
    }
  }

  lemma SettleOthers(s: State, p: nat, outcome: Outcome, s': State)
    requires p in s.parents && s' == Settle(s, p, outcome)
    requires forall q :: q in s.parents && q != p ==> SameChildren(s.rows, s'.rows, q)
    ensures OthersSame(s, p, s')
  {
    hide SameChildren, Bells;
  }

  lemma CommitElsewhere(accepts: Registry, s: State, p: nat, order: Option<seq<Id>>,
                        ids: map<Id, nat>, reuse: map<Id, Fields>, s': State, q: nat)
    requires Safe(s) && CommitStep(accepts, s, p, order, ids, reuse, s') && q != p
    ensures SameChildren(s.rows, s'.rows, q)
  {
    var outcome := Decide(accepts, p, s.parents[p], s.locks[p], order, ids, reuse);
    var job := Job(0, Definition([], []), map[], map[]);
    if outcome.Fail? || outcome.Keep? || outcome.Complete? {
      DefinedUnlessRejected(accepts, s.parents[p], p, s.locks[p], order, ids, reuse);
      job := OutcomeAdds(accepts, s, p, order, ids, reuse);
    }
    hide Safe, Decide, SameChildren, RowsAdded, Choices, ReuseFound;
    SettleElsewhere(s, p, outcome, job, q);
  }

  lemma RowEventUpToDate(accepts: Registry, s: State, e: Event, s': State, p: nat)
    requires UpToDate(s, p) && Step(accepts, s, e, s')
    requires e.Claim? || e.ClaimUnknown? || e.Finish? || e.FailStep? || e.Park? || e.Resume?
    ensures UpToDate(s', p)
  {
    hide UpToDate, ClaimStep, FailRowStep, SucceedStep, ParkStep;
    match e
    case Finish(r, outputs) => SucceedUpToDate(s, r, Running, outputs, s', p);
    case Resume(r, outputs) => SucceedUpToDate(s, r, Waiting, outputs, s', p);
    case ClaimUnknown(r) => FailRowUpToDate(s, r, Pending, s', p);
    case FailStep(r) => FailRowUpToDate(s, r, Running, s', p);
    case Claim(r) => ClaimUpToDate(s, r, s', p);
    case Park(r, gate) => ParkUpToDate(s, r, gate, s', p);
  }

  lemma AdvanceEventUpToDate(accepts: Registry, s: State, e: Event, s': State, p: nat)
    requires Safe(s) && UpToDate(s, p) && CrashFree(e, p) && Step(accepts, s, e, s')
    requires e.Submit? || e.Kick? || e.Begin? || e.Commit? || e.Abort? || e.LoseAdvance?
    ensures UpToDate(s', p)
  {
    assert Unique(s.rows);
    hide Safe, Unique, UpToDate, CommitStep, SubmitStep, BeginStep, KickStep, AbortStep, LoseAdvanceStep;
    match e
    case Commit(q, order, ids, reuse) => CommitUpToDate(accepts, s, q, order, ids, reuse, s', p);
    case Begin(q) => BeginUpToDate(s, q, s', p);
    case Submit(q, def, params) => SubmitUpToDate(s, q, def, params, s', p);
    case Kick(q) => KickUpToDate(s, q, s', p);
    case Abort(q) => UnlockUpToDate(s, q, s', p);
    case LoseAdvance(q) => LoseUpToDate(s, q, s', p);
  }

  lemma TrafficEvent(accepts: Registry, s: State, e: Event, s': State)
    requires Step(accepts, s, e, s')
    requires !(e.Submit? || e.Kick? || e.Begin? || e.Commit? || e.Abort? || e.LoseAdvance?)
    requires !(e.Claim? || e.ClaimUnknown? || e.Finish? || e.FailStep? || e.Park? || e.Resume?)
    ensures TrafficStep(s, e, s')
  {
    hide TrafficStep;
  }

  /** Only a crash of its own advance can leave a run behind: every other event keeps it up to date. */
  lemma StepUpToDate(accepts: Registry, s: State, e: Event, s': State, p: nat)
    requires Safe(s) && UpToDate(s, p) && CrashFree(e, p) && Step(accepts, s, e, s')
    ensures UpToDate(s', p)
  {
    hide Safe, UpToDate, Step, CrashFree, TrafficStep;
    if e.Claim? || e.ClaimUnknown? || e.Finish? || e.FailStep? || e.Park? || e.Resume? {
      RowEventUpToDate(accepts, s, e, s', p);
    } else if e.Submit? || e.Kick? || e.Begin? || e.Commit? || e.Abort? || e.LoseAdvance? {
      AdvanceEventUpToDate(accepts, s, e, s', p);
    } else {
      TrafficEvent(accepts, s, e, s');
      TrafficUpToDate(s, e, s', p);
    }
  }

  lemma KickUpToDate(s: State, q: nat, s': State, p: nat)
    requires UpToDate(s, p) && KickStep(s, q, s')
    ensures UpToDate(s', p)
  {
    hide UpToDate;
    OwedGrowsUpToDate(s, s', p);
  }

  lemma LoseUpToDate(s: State, q: nat, s': State, p: nat)
    requires UpToDate(s, p) && LoseAdvanceStep(s, q, s') && p != q
    ensures UpToDate(s', p)
  {
    hide UpToDate;
    OwedGrowsUpToDate(s, s', p);
  }

  lemma ClaimUpToDate(s: State, r: nat, s': State, p: nat)
    requires UpToDate(s, p) && ClaimStep(s, r, s')
    ensures UpToDate(s', p)
  {
    hide UpToDate;
    QuietMoveUpToDate(s, r, s', p);
  }

  lemma ParkUpToDate(s: State, r: nat, gate: Fields, s': State, p: nat)
    requires UpToDate(s, p) && ParkStep(s, r, gate, s')
    ensures UpToDate(s', p)
  {
    hide UpToDate;
    QuietMoveUpToDate(s, r, s', p);
  }

  lemma TrafficUpToDate(s: State, e: Event, s': State, p: nat)
    requires UpToDate(s, p) && TrafficStep(s, e, s')
    ensures UpToDate(s', p)
  {
    hide UpToDate;
    OwedGrowsUpToDate(s, s', p);
  }

  lemma {:induction false} RunUpToDate(accepts: Registry, s: State, evs: seq<Event>, s': State, p: nat)
    requires Safe(s) && UpToDate(s, p) && CrashFreeRun(evs, p) && Run(accepts, s, evs, s')
    ensures UpToDate(s', p)
    decreases |evs|
  {
    if evs != [] {
      hide Safe, UpToDate, Step, CrashFree;
      var n := |evs| - 1;
      var m := RunSplit(accepts, s, evs, s');
      hide Run;
      RunSafe(accepts, s, evs[..n], m);
      RunUpToDate(accepts, s, evs[..n], m, p);
      StepUpToDate(accepts, m, evs[n], s', p);
    }
  }

  /** Some child of `p` is pending, running or waiting at a gate. */
  ghost predicate HasActiveChild(s: State, p: nat) {
    exists r: nat :: IsChild(s.rows, r, p) && !Terminal(s.rows[r].status)
  }

  lemma {:induction false} OrderDone(s: State, p: nat, def: Definition, order: seq<Id>, n: nat)
    requires Closed(s.rows, p, def) && n <= |order|
    requires forall x :: x in order ==> x in Ids(def.steps)
    requires forall i :: 0 <= i < |order| ==> PredsIn(def.edges, order[i], order[..i])
    requires forall r: nat :: IsChild(s.rows, r, p) ==> s.rows[r].status == Succeeded
    ensures forall i :: 0 <= i < n ==> DoneChild(s.rows, p, order[i])
  {
    if n > 0 {
      OrderDone(s, p, def, order, n - 1);
      var x := order[n - 1];
      forall e | e in def.edges && e.dst == x ensures DoneChild(s.rows, p, e.src) {
        var i :| 0 <= i < n - 1 && order[i] == e.src;
      }
      assert HasChild(s.rows, p, x);
      var r: nat :| IsChild(s.rows, r, p) && s.rows[r].step == x;
      assert DoneRow(s.rows, r, p, x);
    }
  }

  lemma SomethingIsLeft(s: State, p: nat)
    requires Safe(s) && UpToDate(s, p) && Live(s, p) && s.parents[p].def.value.steps != []
    ensures p in s.owed || p in s.locks || HasActiveChild(s, p)
  {
    var parent, def := s.parents[p], s.parents[p].def.value;
    if p !in s.owed && p !in s.locks && !HasActiveChild(s, p) {
      assert Settled(s.rows, p, parent);
      NoFailedChild(s, p);
      forall r: nat | IsChild(s.rows, r, p) ensures s.rows[r].status == Succeeded {}
      var order :| SortAnswer(def, Some(order));
      OrderCovers(def, order);
      OrderDone(s, p, def, order, |order|);
      assert false;
    }
  }

  lemma InitUpToDate(p: nat)
    ensures Safe(Init()) && UpToDate(Init(), p)
  {
  }

  /**
   * No stall: a live run of a non-empty graph that does not mislead the sort, as none without
   * dangling edges does, always has an advance owed or in flight, or a child that is pending, running
   * or waiting, unless one of its own advances was lost in a crash.
   */
  lemma NoStall(accepts: Registry, evs: seq<Event>, s: State, p: nat)
    requires Run(accepts, Init(), evs, s) && CrashFreeRun(evs, p)
    requires Live(s, p) && s.parents[p].def.value.steps != []
    ensures p in s.owed || p in s.locks || HasActiveChild(s, p)
  {
    InitUpToDate(p);
    hide Run, CrashFreeRun, Live, Safe, UpToDate;
    RunSafe(accepts, Init(), evs, s);
    RunUpToDate(accepts, Init(), evs, s, p);
    SomethingIsLeft(s, p);
  }

  lemma NoFailedChild(s: State, p: nat)
    requires FailurePropagates(s) && p in s.parents && s.parents[p].status != Failed
    ensures forall r: nat :: IsChild(s.rows, r, p) ==> s.rows[r].status != Failed
  {
  }
}

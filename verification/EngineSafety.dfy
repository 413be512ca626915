/** Safety of the engine in every reachable state, whatever the interleaving. */
module EngineSafety {
  import opened Prelude
  import opened Graphs
  import opened Refs
  import opened Workflow
  import opened Engine

  // ---- The invariants ----

  ghost predicate SameSlot(a: Row, b: Row) {
    a.parent == b.parent && a.step == b.step
  }

  /** At most one child per parent and step. */
  ghost predicate Unique(rows: map<nat, Row>) {
    forall r, r' :: r in rows && r' in rows && SameSlot(rows[r], rows[r']) ==> r == r'
  }

  ghost predicate DoneRow(rows: map<nat, Row>, r: nat, p: nat, step: Id) {
    r in rows && rows[r].parent == p && rows[r].step == step && rows[r].status == Succeeded
  }

  ghost predicate DoneChild(rows: map<nat, Row>, p: nat, step: Id) {
    exists r: nat :: DoneRow(rows, r, p, step)
  }

  ghost predicate HasChild(rows: map<nat, Row>, p: nat, step: Id) {
    exists r: nat :: IsChild(rows, r, p) && rows[r].step == step
  }

  /** A child is an instance of a step of its parent's definition, stored under its own key. */
  ghost predicate RowTyped(parents: map<nat, Parent>, r: nat, row: Row) {
    && row.parent in parents && parents[row.parent].def.Some?
    && var steps := parents[row.parent].def.value.steps;
    && row.step in Ids(steps)
    && row.stype == Find(steps, row.step).stype && row.config == Find(steps, row.step).config
    && row.key == KeyOf(row.stype, row.config, row.inputs, r)
  }

  ghost predicate Typed(s: State) {
    forall r :: r in s.rows ==> RowTyped(s.parents, r, s.rows[r])
  }

  ghost predicate PredsDone(rows: map<nat, Row>, edges: seq<Edge>, p: nat, step: Id) {
    forall e :: e in edges && e.dst == step ==> DoneChild(rows, p, e.src)
  }

  /** A child exists only if the children of all its predecessors have succeeded. */
  ghost predicate Causal(s: State)
    requires Typed(s)
  {
    forall r :: r in s.rows ==>
      assert RowTyped(s.parents, r, s.rows[r]);
      var row := s.rows[r];
      PredsDone(s.rows, s.parents[row.parent].def.value.edges, row.parent, row.step)
  }

  /** A failed child implies a failed parent. */
  ghost predicate FailurePropagates(s: State) {
    forall r :: r in s.rows && s.rows[r].status == Failed ==>
      s.rows[r].parent in s.parents && s.parents[s.rows[r].parent].status == Failed
  }

  ghost predicate AllStepsDone(rows: map<nat, Row>, p: nat, parent: Parent) {
    && parent.def.Some? && parent.def.value.steps != []
    && forall x :: x in Ids(parent.def.value.steps) ==> DoneChild(rows, p, x)
  }

  /** A succeeded parent implies that every step has a succeeded child, and that there is a step. */
  ghost predicate SuccessComplete(s: State) {
    forall p :: p in s.parents && s.parents[p].status == Succeeded ==>
      AllStepsDone(s.rows, p, s.parents[p])
  }

  /** What an advance in flight has read is the exact set of children, and its successes stand. */
  ghost predicate SnapshotSound(rows: map<nat, Row>, p: nat, snap: Snapshot) {
    && Coherent(snap)
    && (forall x :: x in snap.status <==> HasChild(rows, p, x))
    && (forall x :: x in snap.status ==> snap.status[x] != Failed)
    && (forall r: nat :: IsChild(rows, r, p) && rows[r].step in snap.outputs ==>
          rows[r].status == Succeeded && rows[r].outputs == snap.outputs[rows[r].step])
  }

  ghost predicate LocksSound(s: State) {
    forall p :: p in s.locks ==>
      p in s.parents && s.parents[p].status == Pending && SnapshotSound(s.rows, p, s.locks[p])
  }

  /** Every doorbell, sent or not, names a committed row; every owed advance an existing parent. */
  ghost predicate DoorbellsNameRows(s: State) {
    && (forall r :: r in s.bells || r in s.queue ==> r in s.rows)
    && (forall p :: p in s.owed ==> p in s.parents)
  }

  ghost predicate ParentStatuses(s: State) {
    forall p :: p in s.parents ==> s.parents[p].status == Pending || Terminal(s.parents[p].status)
  }

  ghost predicate Safe(s: State) {
    && Unique(s.rows) && Typed(s) && Causal(s) && FailurePropagates(s) && SuccessComplete(s)
    && LocksSound(s) && DoorbellsNameRows(s) && ParentStatuses(s)
  }

  // ---- Every step only adds rows, and never touches a succeeded one ----

  ghost predicate RowKept(a: Row, b: Row) {
    && SameSlot(a, b) && a.stype == b.stype && a.config == b.config && a.inputs == b.inputs
    && a.key == b.key && (a.status == Succeeded ==> a == b)
  }

  ghost predicate RowsGrow(rows: map<nat, Row>, rows': map<nat, Row>) {
    forall r :: r in rows ==> r in rows' && RowKept(rows[r], rows'[r])
  }

  ghost predicate ParentsGrow(parents: map<nat, Parent>, parents': map<nat, Parent>) {
    forall p :: p in parents ==>
      p in parents' && parents'[p].def == parents[p].def && parents'[p].params == parents[p].params
  }

  ghost predicate Grows(s: State, s': State) {
    RowsGrow(s.rows, s'.rows) && ParentsGrow(s.parents, s'.parents)
  }

  lemma DoneStays(rows: map<nat, Row>, rows': map<nat, Row>, p: nat, x: Id)
    requires RowsGrow(rows, rows') && DoneChild(rows, p, x)
    ensures DoneChild(rows', p, x)
  {
    var r: nat :| DoneRow(rows, r, p, x);
    assert RowKept(rows[r], rows'[r]);
    assert DoneRow(rows', r, p, x);
  }

  lemma PredsStay(rows: map<nat, Row>, rows': map<nat, Row>, edges: seq<Edge>, p: nat, x: Id)
    requires RowsGrow(rows, rows') && PredsDone(rows, edges, p, x)
    ensures PredsDone(rows', edges, p, x)
  {
    forall e | e in edges && e.dst == x ensures DoneChild(rows', p, e.src) {
      DoneStays(rows, rows', p, e.src);
    }
  }

  /** What was an instance of its step with finished predecessors remains one. */
  lemma OldRowStays(s: State, s': State, r: nat)
    requires Typed(s) && Causal(s) && Grows(s, s') && r in s.rows
    ensures r in s'.rows && RowTyped(s'.parents, r, s'.rows[r])
    ensures var row := s'.rows[r];
            PredsDone(s'.rows, s'.parents[row.parent].def.value.edges, row.parent, row.step)
  {
    var row := s.rows[r];
    assert RowTyped(s.parents, r, row) && RowKept(row, s'.rows[r]);
    PredsStay(s.rows, s'.rows, s.parents[row.parent].def.value.edges, row.parent, row.step);
  }

  lemma KeepRows(s: State, s': State)
    requires Typed(s) && Causal(s) && Grows(s, s') && s'.rows.Keys == s.rows.Keys
    ensures Typed(s') && Causal(s')
  {
    forall r | r in s'.rows ensures RowTyped(s'.parents, r, s'.rows[r]) {
      assert r in s.rows.Keys;
      OldRowStays(s, s', r);
    }
    forall r | r in s'.rows
      ensures var row := s'.rows[r];
              PredsDone(s'.rows, s'.parents[row.parent].def.value.edges, row.parent, row.step)
    {
      assert r in s.rows.Keys;
      OldRowStays(s, s', r);
    }
  }

  lemma KeepUnique(rows: map<nat, Row>, rows': map<nat, Row>)
    requires Unique(rows) && RowsGrow(rows, rows') && rows'.Keys == rows.Keys
    ensures Unique(rows')
  {
    forall r, r' | r in rows' && r' in rows' && SameSlot(rows'[r], rows'[r']) ensures r == r' {
      assert r in rows.Keys && r' in rows.Keys;
      assert RowKept(rows[r], rows'[r]) && RowKept(rows[r'], rows'[r']);
      assert SameSlot(rows[r], rows[r']);
    }
  }

  lemma KeepAllDone(rows: map<nat, Row>, rows': map<nat, Row>, p: nat, parent: Parent)
    requires RowsGrow(rows, rows') && AllStepsDone(rows, p, parent)
    ensures AllStepsDone(rows', p, parent)
  {
    forall x | x in Ids(parent.def.value.steps) ensures DoneChild(rows', p, x) {
      DoneStays(rows, rows', p, x);
    }
  }

  lemma KeepSnapshot(rows: map<nat, Row>, rows': map<nat, Row>, p: nat, snap: Snapshot)
    requires SnapshotSound(rows, p, snap) && RowsGrow(rows, rows')
    requires forall r: nat :: IsChild(rows', r, p) ==> r in rows
    ensures SnapshotSound(rows', p, snap)
  {
    forall x ensures HasChild(rows, p, x) <==> HasChild(rows', p, x) {
      if HasChild(rows, p, x) {
        var r: nat :| IsChild(rows, r, p) && rows[r].step == x;
        assert RowKept(rows[r], rows'[r]);
        assert IsChild(rows', r, p) && rows'[r].step == x;
      }
      if HasChild(rows', p, x) {
        var r: nat :| IsChild(rows', r, p) && rows'[r].step == x;
        assert RowKept(rows[r], rows'[r]);
        assert IsChild(rows, r, p) && rows[r].step == x;
      }
    }
    forall r: nat | IsChild(rows', r, p) && rows'[r].step in snap.outputs
      ensures rows'[r].status == Succeeded && rows'[r].outputs == snap.outputs[rows'[r].step]
    {
      assert RowKept(rows[r], rows'[r]);
      assert IsChild(rows, r, p);
    }
  }

  /** Parents keep their status, become failed while unlocked, or are new and pending. */
  ghost predicate ParentsMove(s: State, s': State) {
    && (forall p :: p in s'.parents ==>
          || (p in s.parents && s'.parents[p] == s.parents[p])
          || (p in s.parents && s'.parents[p].status == Failed && p !in s'.locks)
          || (p !in s.parents && s'.parents[p].status == Pending))
  }

  ghost predicate LocksShrink(s: State, s': State) {
    forall p :: p in s'.locks ==> p in s.locks && s'.locks[p] == s.locks[p]
  }

  /** The common argument for every event that adds no row. */
  lemma QuietSafe(s: State, s': State)
    requires Safe(s) && Grows(s, s') && s'.rows.Keys == s.rows.Keys
    requires ParentsMove(s, s') && FailurePropagates(s') && DoorbellsNameRows(s')
    requires LocksSound(s')
    ensures Safe(s')
  {
    KeepRows(s, s');
    KeepUnique(s.rows, s'.rows);
    forall p | p in s'.parents && s'.parents[p].status == Succeeded
      ensures AllStepsDone(s'.rows, p, s'.parents[p])
    {
      KeepAllDone(s.rows, s'.rows, p, s.parents[p]);
    }
  }

  lemma QuietLocks(s: State, s': State)
    requires LocksSound(s) && Grows(s, s') && s'.rows.Keys == s.rows.Keys
    requires ParentsMove(s, s') && LocksShrink(s, s')
    ensures LocksSound(s')
  {
    forall p | p in s'.locks
      ensures p in s'.parents && s'.parents[p].status == Pending
      ensures SnapshotSound(s'.rows, p, s'.locks[p])
    {
      forall r: nat | IsChild(s'.rows, r, p) ensures r in s.rows { assert r in s.rows.Keys; }
      KeepSnapshot(s.rows, s'.rows, p, s.locks[p]);
    }
  }

  // ---- The small events ----

  lemma MoveRowSafe(s: State, r: nat, from: Status, to: Status, outputs: Fields, s': State)
    requires Safe(s) && MoveRow(s, r, from, to, outputs, s') && !Terminal(from) && to != Failed
    requires DoorbellsNameRows(s')
    ensures Safe(s')
  {
    hide Unique, Typed, Causal, SuccessComplete, LocksSound;
    MoveRowGrows(s, r, from, to, outputs, s');
    QuietLocks(s, s');
    QuietSafe(s, s');
  }

  lemma MoveRowGrows(s: State, r: nat, from: Status, to: Status, outputs: Fields, s': State)
    requires MoveRow(s, r, from, to, outputs, s') && from != Succeeded
    ensures Grows(s, s') && s'.rows.Keys == s.rows.Keys
  {
  }

  lemma FailRowGrows(s: State, r: nat, from: Status, s': State)
    requires FailRowStep(s, r, from, s') && from != Succeeded
    ensures Grows(s, s') && s'.rows.Keys == s.rows.Keys
  {
  }

  /** A failing child takes its parent with it in the same transaction. */
  lemma FailRowSafe(s: State, r: nat, from: Status, s': State)
    requires Safe(s) && FailRowStep(s, r, from, s') && !Terminal(from)
    requires DoorbellsNameRows(s')
    ensures Safe(s')
  {
    hide Unique, Typed, Causal, SuccessComplete, LocksSound;
    FailRowGrows(s, r, from, s');
    QuietLocks(s, s');
    QuietSafe(s, s');
  }

  lemma ChildStepsAreChildren(rows: map<nat, Row>, p: nat, x: Id)
    ensures x in ChildSteps(rows, p) <==> HasChild(rows, p, x)
  {
    if x in ChildSteps(rows, p) {
      var r := ChildRow(rows, p, x);
      assert IsChild(rows, r, p) && rows[r].step == x;
    }
    if HasChild(rows, p, x) {
      var r: nat :| IsChild(rows, r, p) && rows[r].step == x;
      assert r in ChildIds(rows, p);
    }
  }

  /** The dictionaries hold exactly the status and outputs of the unique child of each step. */
  lemma ReadIsExact(rows: map<nat, Row>, p: nat, r: nat)
    requires Unique(rows) && IsChild(rows, r, p)
    ensures var snap, row := Read(rows, p), rows[r];
            && row.step in snap.status && snap.status[row.step] == row.status
            && (row.step in snap.outputs <==> row.status == Succeeded)
            && (row.status == Succeeded ==> snap.outputs[row.step] == row.outputs)
  {
    assert r in ChildIds(rows, p);
    assert rows[r].step in ChildSteps(rows, p);
    assert SameSlot(rows[r], rows[ChildRow(rows, p, rows[r].step)]);
  }

  lemma ReadIsSound(s: State, p: nat)
    requires Unique(s.rows) && FailurePropagates(s)
    requires p in s.parents && s.parents[p].status == Pending
    ensures SnapshotSound(s.rows, p, Read(s.rows, p))
  {
    var rows, snap := s.rows, Read(s.rows, p);
    assert Coherent(snap);
    forall x ensures x in snap.status <==> HasChild(rows, p, x) {
      ChildStepsAreChildren(rows, p, x);
    }
    forall r: nat | IsChild(rows, r, p) && rows[r].step in snap.outputs
      ensures rows[r].status == Succeeded && rows[r].outputs == snap.outputs[rows[r].step]
    {
      ReadIsExact(rows, p, r);
    }
    forall x | x in snap.status ensures snap.status[x] != Failed {
      var r := ChildRow(rows, p, x);
      ReadIsExact(rows, p, r);
    }
  }

  lemma BeginLocks(s: State, p: nat, s': State)
    requires LocksSound(s) && Unique(s.rows) && FailurePropagates(s) && ParentStatuses(s)
    requires p in s.parents && s'.parents == s.parents && s'.rows == s.rows
    requires s'.locks == if Terminal(s.parents[p].status) then s.locks else s.locks[p := Read(s.rows, p)]
    ensures LocksSound(s')
  {
    hide Read, SnapshotSound, Unique, FailurePropagates;
    if !Terminal(s.parents[p].status) {
      ReadIsSound(s, p);
    }
  }

  /** The common argument for events that leave every row as it is. */
  lemma RowsUntouched(s: State, s': State)
    requires Safe(s) && s'.rows == s.rows && ParentsGrow(s.parents, s'.parents)
    requires ParentsMove(s, s') && DoorbellsNameRows(s') && LocksSound(s')
    ensures Safe(s')
  {
    hide Unique, Typed, Causal, SuccessComplete, LocksSound;
    assert RowsGrow(s.rows, s'.rows);
    assert FailurePropagates(s') by {
      forall r | r in s'.rows && s'.rows[r].status == Failed
        ensures s'.rows[r].parent in s'.parents && s'.parents[s'.rows[r].parent].status == Failed
      {
        assert s.parents[s.rows[r].parent].status == Failed;
      }
    }
    QuietSafe(s, s');
  }

  /** Message traffic and lost or aborted advances take no lock. */
  lemma TrafficSafe(s: State, s': State)
    requires Safe(s) && s'.rows == s.rows && ParentsGrow(s.parents, s'.parents)
    requires ParentsMove(s, s') && LocksShrink(s, s') && DoorbellsNameRows(s')
    ensures Safe(s')
  {
    assert LocksSound(s') by {
      hide Unique, Typed, Causal, SuccessComplete, LocksSound, FailurePropagates;
      assert Grows(s, s');
      QuietLocks(s, s');
    }
    RowsUntouched(s, s');
  }

  lemma BeginSafe(s: State, p: nat, s': State)
    requires Safe(s) && BeginStep(s, p, s')
    ensures Safe(s')
  {
    hide Unique, Typed, Causal, SuccessComplete, LocksSound, FailurePropagates, ParentStatuses, Read;
    BeginLocks(s, p, s');
    RowsUntouched(s, s');
  }

  // ---- The commit of an advance ----

  /** The new rows sit beside the old ones and are instances of steps that had no child. */
  ghost predicate RowsAdded(s: State, p: nat, pass: Pass, job: Job)
    requires job.HasIds()
  {
    && p in s.parents && p in s.locks && s.parents[p].def.Some? && s.parents[p].status == Pending
    && job.parent == p && job.def == s.parents[p].def.value
    && FreshIds(s, job.def, job.ids)
    && Extends(job, s.locks[p], pass)
    && SnapshotSound(s.rows, p, s.locks[p])
  }

  lemma NewRowFacts(s: State, p: nat, pass: Pass, job: Job, r: nat)
    requires job.HasIds() && RowsAdded(s, p, pass, job) && r in pass.created
    ensures r !in s.rows
    ensures var x := pass.created[r].step;
            && IsNewChild(job, pass, x) && job.ids[x] == r && !HasChild(s.rows, p, x)
  {
    var x := pass.created[r].step;
    assert x in pass.status && x !in s.locks[p].status;
  }

  lemma AddedGrow(s: State, p: nat, pass: Pass, job: Job)
    requires job.HasIds() && RowsAdded(s, p, pass, job)
    ensures RowsGrow(s.rows, s.rows + pass.created)
    ensures forall r :: r in s.rows ==> r !in pass.created
  {
    forall r | r in s.rows ensures r !in pass.created {
      if r in pass.created { NewRowFacts(s, p, pass, job, r); }
    }
  }

  lemma SucceededInPass(s: State, p: nat, pass: Pass, job: Job, x: Id)
    requires job.HasIds() && RowsAdded(s, p, pass, job)
    requires x in pass.status && pass.status[x] == Succeeded
    ensures DoneChild(s.rows + pass.created, p, x)
  {
    var rows' := s.rows + pass.created;
    if x in s.locks[p].status {
      assert HasChild(s.rows, p, x);
      var r: nat :| IsChild(s.rows, r, p) && s.rows[r].step == x;
      AddedGrow(s, p, pass, job);
      assert s.rows[r].step in s.locks[p].outputs;
      assert DoneRow(rows', r, p, x);
    } else {
      assert IsNewChild(job, pass, x);
      assert DoneRow(rows', job.ids[x], p, x);
    }
  }

  lemma AddedUnique(s: State, p: nat, pass: Pass, job: Job)
    requires Unique(s.rows) && job.HasIds() && RowsAdded(s, p, pass, job)
    ensures Unique(s.rows + pass.created)
  {
    var rows' := s.rows + pass.created;
    AddedGrow(s, p, pass, job);
    forall r, r' | r in rows' && r' in rows' && SameSlot(rows'[r], rows'[r']) ensures r == r' {
      if r in pass.created { NewRowFacts(s, p, pass, job, r); }
      if r' in pass.created { NewRowFacts(s, p, pass, job, r'); }
      if r in s.rows && r' in s.rows { assert SameSlot(s.rows[r], s.rows[r']); }
      assert r in s.rows && s.rows[r].parent == p ==> IsChild(s.rows, r, p);
      assert r' in s.rows && s.rows[r'].parent == p ==> IsChild(s.rows, r', p);
    }
  }

  lemma AddedRow(s: State, p: nat, pass: Pass, job: Job, s': State, r: nat)
    requires job.HasIds() && RowsAdded(s, p, pass, job) && r in pass.created
    requires s'.rows == s.rows + pass.created && ParentsGrow(s.parents, s'.parents)
    ensures var row := pass.created[r];
            && row.status != Failed && RowTyped(s'.parents, r, row)
            && PredsDone(s'.rows, s'.parents[row.parent].def.value.edges, row.parent, row.step)
  {
    NewRowFacts(s, p, pass, job, r);
    var x := pass.created[r].step;
    assert IsNewChild(job, pass, x);
    forall e | e in job.def.edges && e.dst == x ensures DoneChild(s'.rows, p, e.src) {
      SucceededInPass(s, p, pass, job, e.src);
    }
  }

  lemma AddedTyped(s: State, p: nat, pass: Pass, job: Job, s': State)
    requires Typed(s) && Causal(s) && job.HasIds() && RowsAdded(s, p, pass, job)
    requires s'.rows == s.rows + pass.created && ParentsGrow(s.parents, s'.parents)
    ensures Typed(s') && Causal(s')
  {
    AddedGrow(s, p, pass, job);
    forall r | r in s'.rows ensures RowTyped(s'.parents, r, s'.rows[r]) {
      if r in s.rows { OldRowStays(s, s', r); } else { AddedRow(s, p, pass, job, s', r); }
    }
    forall r | r in s'.rows
      ensures var row := s'.rows[r];
              PredsDone(s'.rows, s'.parents[row.parent].def.value.edges, row.parent, row.step)
    {
      if r in s.rows { OldRowStays(s, s', r); } else { AddedRow(s, p, pass, job, s', r); }
    }
  }

  /** Snapshots of advances on other parents are untouched by rows added under `p`. */
  lemma AddedLocks(s: State, p: nat, pass: Pass, job: Job, s': State)
    requires LocksSound(s) && job.HasIds() && RowsAdded(s, p, pass, job)
    requires s'.rows == s.rows + pass.created && s'.locks == s.locks - {p}
    requires forall q :: q in s.parents && q != p ==> q in s'.parents && s'.parents[q] == s.parents[q]
    ensures LocksSound(s')
  {
    AddedGrow(s, p, pass, job);
    forall q | q in s'.locks
      ensures q in s'.parents && s'.parents[q].status == Pending
      ensures SnapshotSound(s'.rows, q, s'.locks[q])
    {
      forall r: nat | IsChild(s'.rows, r, q) ensures r in s.rows {
        if r in pass.created { NewRowFacts(s, p, pass, job, r); }
      }
      KeepSnapshot(s.rows, s'.rows, q, s.locks[q]);
    }
  }

  ghost predicate OnlyParentMoves(s: State, p: nat, s': State)
    requires p in s.parents
  {
    && s'.parents.Keys == s.parents.Keys
    && (forall q :: q in s.parents && q != p ==> s'.parents[q] == s.parents[q])
    && s'.parents[p].def == s.parents[p].def && s'.parents[p].params == s.parents[p].params
  }

  lemma AddedFailures(s: State, p: nat, pass: Pass, job: Job, s': State)
    requires FailurePropagates(s) && job.HasIds() && RowsAdded(s, p, pass, job)
    requires s'.rows == s.rows + pass.created && OnlyParentMoves(s, p, s')
    ensures FailurePropagates(s')
  {
    AddedGrow(s, p, pass, job);
    forall r | r in s'.rows && s'.rows[r].status == Failed
      ensures s'.rows[r].parent in s'.parents && s'.parents[s'.rows[r].parent].status == Failed
    {
      if r in pass.created { NewRowFacts(s, p, pass, job, r); }
      assert r in s.rows && s'.rows[r] == s.rows[r];
    }
  }

  lemma AddedSuccess(s: State, p: nat, pass: Pass, job: Job, s': State)
    requires SuccessComplete(s) && job.HasIds() && RowsAdded(s, p, pass, job)
    requires s'.rows == s.rows + pass.created && OnlyParentMoves(s, p, s')
    requires s'.parents[p].status == Succeeded ==> AllSucceeded(job.def, pass.status)
    ensures SuccessComplete(s')
  {
    AddedGrow(s, p, pass, job);
    forall q | q in s'.parents && s'.parents[q].status == Succeeded
      ensures AllStepsDone(s'.rows, q, s'.parents[q])
    {
      if q == p {
        forall x | x in Ids(job.def.steps) ensures DoneChild(s'.rows, p, x) {
          SucceededInPass(s, p, pass, job, x);
        }
      } else {
        assert q in s.parents.Keys;
        KeepAllDone(s.rows, s'.rows, q, s.parents[q]);
      }
    }
  }

  lemma AddedSafe(s: State, p: nat, pass: Pass, job: Job, s': State)
    requires Safe(s) && job.HasIds() && RowsAdded(s, p, pass, job)
    requires s'.rows == s.rows + pass.created && s'.locks == s.locks - {p}
    requires OnlyParentMoves(s, p, s') && DoorbellsNameRows(s')
    requires s'.parents[p].status == Pending || s'.parents[p].status == Failed
          || (s'.parents[p].status == Succeeded && AllSucceeded(job.def, pass.status))
    ensures Safe(s')
  {
    AddedUnique(s, p, pass, job);
    AddedTyped(s, p, pass, job, s');
    AddedLocks(s, p, pass, job, s');
    AddedFailures(s, p, pass, job, s');
    AddedSuccess(s, p, pass, job, s');
    assert ParentStatuses(s') by {
      forall q | q in s'.parents ensures s'.parents[q].status == Pending || Terminal(s'.parents[q].status) {
        assert q in s.parents.Keys;
      }
    }
  }

  lemma NoRowsAddedSafe(s: State, p: nat, s': State, status: Status)
    requires Safe(s) && p in s.locks && p in s.parents && (status == Pending || status == Failed)
    requires s' == SetParent(Unlock(s, p), p, status)
    ensures Safe(s')
  {
    assert DoorbellsNameRows(s) && s.parents[p].status == Pending;
    hide Safe;
    UnlockKeeps(s, p, s', status);
    hide *;
    TrafficSafe(s, s');
  }

  lemma UnlockKeeps(s: State, p: nat, s': State, status: Status)
    requires DoorbellsNameRows(s) && p in s.parents && s.parents[p].status == Pending
    requires s' == SetParent(Unlock(s, p), p, status) && (status == Pending || status == Failed)
    ensures s'.rows == s.rows && ParentsGrow(s.parents, s'.parents)
    ensures ParentsMove(s, s') && LocksShrink(s, s') && DoorbellsNameRows(s')
  {
    assert status == Pending ==> s'.parents[p] == s.parents[p];
  }

  lemma LockedIsPending(s: State, p: nat)
    requires Safe(s) && p in s.locks
    ensures p in s.parents && s.parents[p].status == Pending
    ensures SnapshotSound(s.rows, p, s.locks[p]) && Coherent(s.locks[p])
  {
  }

  /** An outcome that adds rows adds instances of steps that had no child. */
  lemma OutcomeAdds(accepts: Registry, s: State, p: nat, order: Option<seq<Id>>,
                    ids: map<Id, nat>, reuse: map<Id, Fields>) returns (job: Job)
    requires Safe(s) && p in s.locks && p in s.parents && s.parents[p].def.Some?
    requires Choices(s, s.parents[p], order, ids)
    ensures job == JobOf(p, s.parents[p], ids) && job.HasIds()
    ensures var outcome := Decide(accepts, p, s.parents[p], s.locks[p], order, ids, reuse);
            && (outcome.Fail? || outcome.Keep? || outcome.Complete? ==>
                  RowsAdded(s, p, outcome.pass, job))
            && (outcome.Complete? ==> AllSucceeded(job.def, outcome.pass.status))
  {
    LockedIsPending(s, p);
    job := JobOf(p, s.parents[p], ids);
    FreshIdsFacts(s, job.def, ids);
    hide Safe, SnapshotSound, SortAnswer, Coherent, Extends, FreshIds;
    DecideExtends(accepts, p, s.parents[p], s.locks[p], order, job, reuse);
    hide Decide, AllSucceeded;
  }

  lemma DecideExtends(accepts: Registry, p: nat, parent: Parent, snap: Snapshot,
                      order: Option<seq<Id>>, job: Job, reuse: map<Id, Fields>)
    requires parent.def.Some? && job == JobOf(p, parent, job.ids) && job.HasIds()
    requires Injective(job.ids) && Coherent(snap)
    ensures var outcome := Decide(accepts, p, parent, snap, order, job.ids, reuse);
            && (outcome.Fail? || outcome.Keep? || outcome.Complete? ==> Extends(job, snap, outcome.pass))
            && (outcome.Complete? ==> AllSucceeded(job.def, outcome.pass.status))
  {
    hide RunPass, Coherent, Extends, Injective, AllSucceeded;
    if order.Some? {
      PassExtends(accepts, job, reuse, snap, order.value);
    }
  }

  lemma FreshIdsFacts(s: State, def: Definition, ids: map<Id, nat>)
    requires FreshIds(s, def, ids)
    ensures Injective(ids) && forall x :: x in Ids(def.steps) ==> x in ids
  {
  }

  lemma SettleDoorbells(s: State, p: nat, outcome: Outcome)
    requires DoorbellsNameRows(s) && p in s.parents
    ensures DoorbellsNameRows(Settle(s, p, outcome))
  {
  }

  lemma SettleSafe(s: State, p: nat, outcome: Outcome, job: Job)
    requires Safe(s) && job.HasIds() && (outcome.Fail? || outcome.Keep? || outcome.Complete?)
    requires RowsAdded(s, p, outcome.pass, job)
    requires outcome.Complete? ==> AllSucceeded(job.def, outcome.pass.status)
    ensures Safe(Settle(s, p, outcome))
  {
    SettleDoorbells(s, p, outcome);
    assert s.parents[p].status == Pending;
    hide Safe, DoorbellsNameRows, AllSucceeded, SnapshotSound, Extends, FreshIds, Bells;
    AddedSafe(s, p, outcome.pass, job, Settle(s, p, outcome));
  }

  lemma CommitSafe(accepts: Registry, s: State, p: nat, order: Option<seq<Id>>, ids: map<Id, nat>,
                   reuse: map<Id, Fields>, s': State)
    requires Safe(s) && CommitStep(accepts, s, p, order, ids, reuse, s')
    ensures Safe(s')
  {
    LockedIsPending(s, p);
    hide Safe, SnapshotSound, ReuseFound, Coherent, Decide, RowsAdded, AllSucceeded, Settle, Choices;
    var outcome := Decide(accepts, p, s.parents[p], s.locks[p], order, ids, reuse);
    if outcome.Quit? || outcome.Reject? {
      SettleNothing(s, p, outcome);
    } else {
      DefinedUnlessRejected(accepts, s.parents[p], p, s.locks[p], order, ids, reuse);
      var job := OutcomeAdds(accepts, s, p, order, ids, reuse);
      SettleSafe(s, p, outcome, job);
    }
  }

  lemma SettleNothing(s: State, p: nat, outcome: Outcome)
    requires Safe(s) && p in s.locks && p in s.parents && s.parents[p].status == Pending
    requires outcome.Quit? || outcome.Reject?
    ensures Safe(Settle(s, p, outcome))
  {
    var status := if outcome.Quit? then Pending else Failed;
    assert s.parents[p := s.parents[p].(status := Pending)] == s.parents;
    assert Settle(s, p, outcome) == SetParent(Unlock(s, p), p, status);
    hide *;
    NoRowsAddedSafe(s, p, Settle(s, p, outcome), status);
  }

  lemma DefinedUnlessRejected(accepts: Registry, parent: Parent, p: nat, snap: Snapshot,
                              order: Option<seq<Id>>, ids: map<Id, nat>, reuse: map<Id, Fields>)
    requires parent.def.Some? ==> JobOf(p, parent, ids).HasIds()
    requires !Decide(accepts, p, parent, snap, order, ids, reuse).Reject?
    ensures parent.def.Some? && order.Some?
  {
  }

  lemma SucceedSafe(s: State, r: nat, from: Status, outputs: Fields, s': State)
    requires Safe(s) && SucceedStep(s, r, from, outputs, s') && !Terminal(from)
    ensures Safe(s')
  {
    hide Unique, Causal, SuccessComplete, LocksSound, FailurePropagates;
    assert RowTyped(s.parents, r, s.rows[r]);
    MoveRowSafe(s, r, from, Succeeded, outputs, s');
  }

  lemma ClaimSafe(s: State, r: nat, s': State)
    requires Safe(s) && ClaimStep(s, r, s')
    ensures Safe(s')
  {
    hide Unique, Typed, Causal, SuccessComplete, LocksSound, FailurePropagates;
    MoveRowSafe(s, r, Pending, Running, s.rows[r].outputs, s');
  }

  lemma ParkSafe(s: State, r: nat, gate: Fields, s': State)
    requires Safe(s) && ParkStep(s, r, gate, s')
    ensures Safe(s')
  {
    hide Unique, Typed, Causal, SuccessComplete, LocksSound, FailurePropagates;
    MoveRowSafe(s, r, Running, Waiting, map["gate_data" := Obj(gate)], s');
  }

  lemma TrafficStepSafe(s: State, e: Event, s': State)
    requires Safe(s) && TrafficStep(s, e, s')
    ensures Safe(s')
  {
    assert DoorbellsNameRows(s);
    hide *;
    TrafficKeeps(s, e, s');
    OwedOrLocksSafe(s, s');
  }

  lemma TrafficKeeps(s: State, e: Event, s': State)
    requires TrafficStep(s, e, s') && DoorbellsNameRows(s)
    ensures s'.rows == s.rows && s'.parents == s.parents && LocksShrink(s, s')
    ensures DoorbellsNameRows(s')
  {
  }

  lemma SubmitSafe(s: State, p: nat, def: Option<Definition>, params: Fields, s': State)
    requires Safe(s) && SubmitStep(s, p, def, params, s')
    ensures Safe(s')
  {
    NewParentPending(s, p, Parent(def, params, Pending), s');
    assert DoorbellsNameRows(s');
    hide Unique, Typed, Causal, SuccessComplete, LocksSound, FailurePropagates, DoorbellsNameRows;
    TrafficSafe(s, s');
  }

  lemma NewParentPending(s: State, p: nat, parent: Parent, s': State)
    requires p !in s.parents && parent.status == Pending && s'.parents == s.parents[p := parent]
    ensures ParentsMove(s, s') && ParentsGrow(s.parents, s'.parents)
  {
  }

  /** A kicked or lost advance changes only what is owed; an aborted one only frees its lock. */
  lemma OwedOrLocksSafe(s: State, s': State)
    requires Safe(s) && s'.rows == s.rows && s'.parents == s.parents && LocksShrink(s, s')
    requires DoorbellsNameRows(s')
    ensures Safe(s')
  {
    hide Unique, Typed, Causal, SuccessComplete, LocksSound, FailurePropagates, DoorbellsNameRows;
    TrafficSafe(s, s');
  }

  lemma KickSafe(s: State, p: nat, s': State)
    requires Safe(s) && KickStep(s, p, s')
    ensures Safe(s')
  {
    hide Unique, Typed, Causal, SuccessComplete, LocksSound, FailurePropagates;
    OwedOrLocksSafe(s, s');
  }

  lemma AbortSafe(s: State, p: nat, s': State)
    requires Safe(s) && AbortStep(s, p, s')
    ensures Safe(s')
  {
    hide Unique, Typed, Causal, SuccessComplete, LocksSound, FailurePropagates;
    OwedOrLocksSafe(s, s');
  }

  lemma LoseAdvanceSafe(s: State, p: nat, s': State)
    requires Safe(s) && LoseAdvanceStep(s, p, s')
    ensures Safe(s')
  {
    hide Unique, Typed, Causal, SuccessComplete, LocksSound, FailurePropagates;
    OwedOrLocksSafe(s, s');
  }

  lemma FailRowDoorbells(s: State, r: nat, from: Status, s': State)
    requires Safe(s) && FailRowStep(s, r, from, s')
    requires s'.queue == s.queue || s'.queue == s.queue - multiset{r}
    ensures DoorbellsNameRows(s')
  {
    hide Unique, Typed, Causal, SuccessComplete, LocksSound, FailurePropagates;
  }

  lemma StepSafe(accepts: Registry, s: State, e: Event, s': State)
    requires Safe(s) && Step(accepts, s, e, s')
    ensures Safe(s')
  {
    hide Safe, FailRowStep, DoorbellsNameRows, CommitStep, SubmitStep, KickStep, BeginStep, AbortStep;
    hide LoseAdvanceStep, ClaimStep;
    hide SucceedStep, ParkStep, TrafficStep;
    match e
    case Commit(p, order, ids, reuse) => CommitSafe(accepts, s, p, order, ids, reuse, s');
    case Begin(p) => BeginSafe(s, p, s');
    case Claim(r) => ClaimSafe(s, r, s');
    case Finish(r, outputs) => SucceedSafe(s, r, Running, outputs, s');
    case Resume(r, outputs) => SucceedSafe(s, r, Waiting, outputs, s');
    case Park(r, gate) => ParkSafe(s, r, gate, s');
    case ClaimUnknown(r) => FailRowDoorbells(s, r, Pending, s'); FailRowSafe(s, r, Pending, s');
    case FailStep(r) => FailRowDoorbells(s, r, Running, s'); FailRowSafe(s, r, Running, s');
    case Submit(p, def, params) => SubmitSafe(s, p, def, params, s');
    case Kick(p) => KickSafe(s, p, s');
    case Abort(p) => AbortSafe(s, p, s');
    case LoseAdvance(p) => LoseAdvanceSafe(s, p, s');
    case _ => TrafficStepSafe(s, e, s');
  }

  lemma {:induction false} RunSafe(accepts: Registry, s: State, evs: seq<Event>, s': State)
    requires Safe(s) && Run(accepts, s, evs, s')
    ensures Safe(s')
    decreases |evs|
  {
    if evs != [] {
      var n := |evs| - 1;
      var m :| Run(accepts, s, evs[..n], m) && Step(accepts, m, evs[n], s');
      RunSafe(accepts, s, evs[..n], m);
      StepSafe(accepts, m, evs[n], s');
    }
  }

  /** Safety in every reachable state. */
  lemma ReachableSafe(accepts: Registry, s: State)
    requires Reachable(accepts, s)
    ensures Safe(s)
  {
    var evs :| Run(accepts, Init(), evs, s);
    RunSafe(accepts, Init(), evs, s);
  }
}

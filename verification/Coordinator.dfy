/**
 * The coordinator's own code: dictionaries filled in loops, an order from Kahn's algorithm, rows
 * added step by step. Each method is proved to take exactly the steps of the transition system.
 */
module Coordinator {
  import opened Prelude
  import opened Graphs
  import opened Refs
  import opened Workflow
  import opened Engine
  import opened EngineSafety
  import Kahn

  /** Predecessor ids by step, in edge order. */
  ghost predicate IsPredMap(edges: seq<Edge>, preds: map<Id, seq<Id>>) {
    forall x, q :: q in Kahn.Get(preds, x, []) <==> Edge(q, x) in edges
  }

  method PredecessorMap(ids: seq<Id>, edges: seq<Edge>) returns (preds: map<Id, seq<Id>>)
    ensures IsPredMap(edges, preds)
  {
    preds := map x | x in ids :: [];
    for i := 0 to |edges|
      invariant IsPredMap(edges[..i], preds)
    {
      var e := edges[i];
      preds := preds[e.dst := Kahn.Get(preds, e.dst, []) + [e.src]];
      assert edges[..i + 1] == edges[..i] + [e];
    }
    assert edges[..|edges|] == edges;
  }

  /** Ready when every predecessor has a succeeded child. */
  method AllSucceededPreds(ghost edges: seq<Edge>, preds: seq<Id>, ghost s: Id, status: map<Id, Status>)
    returns (ready: bool)
    requires forall q :: q in preds <==> Edge(q, s) in edges
    ensures ready <==> Ready(edges, s, status)
  {
    for i := 0 to |preds|
      invariant forall q :: q in preds[..i] ==> q in status && status[q] == Succeeded
    {
      assert preds[i] in preds;
      if preds[i] !in status || status[preds[i]] != Succeeded {
        assert Edge(preds[i], s) in edges;
        return false;
      }
      assert preds[..i + 1] == preds[..i] + [preds[i]];
    }
    assert preds[..|preds|] == preds;
    forall e | e in edges && e.dst == s ensures e.src in status && status[e.src] == Succeeded {
      assert e == Edge(e.src, s);
    }
    ready := true;
  }

  /** The idempotency query: outputs of some succeeded run of this type with this key. */
  method FindPrior(rows: map<nat, Row>, stype: string, key: Key) returns (prior: Option<Fields>)
    ensures prior.Some? ==>
      exists r :: r in rows && IsPrior(rows[r], stype, key) && rows[r].outputs == prior.value
    ensures prior.None? ==> forall r :: r in rows ==> !IsPrior(rows[r], stype, key)
  {
    var todo := rows.Keys;
    while todo != {}
      invariant todo <= rows.Keys
      invariant forall r :: r in rows && r !in todo ==> !IsPrior(rows[r], stype, key)
    {
      var r :| r in todo;
      if rows[r].stype == stype && rows[r].status == Succeeded && rows[r].key == key {
        return Some(rows[r].outputs);
      }
      todo := todo - {r};
    }
    prior := None;
  }

  method UnusedId(used: set<nat>) returns (id: nat)
    ensures forall r :: r in used ==> r < id
  {
    id := 0;
    var todo := used;
    while todo != {}
      invariant todo <= used
      invariant forall r :: r in used && r !in todo ==> r < id
    {
      var r :| r in todo;
      if r >= id { id := r + 1; }
      todo := todo - {r};
    }
  }

  /** Row ids for the steps of a definition, none of them in the table. */
  method AssignIds(rows: map<nat, Row>, steps: seq<Id>) returns (ids: map<Id, nat>)
    requires NoDup(steps)
    ensures Injective(ids) && (forall x :: x in ids <==> x in steps)
    ensures forall x :: x in ids ==> ids[x] !in rows
  {
    var next := UnusedId(rows.Keys);
    ids := map[];
    for i := 0 to |steps|
      invariant forall x :: x in ids <==> x in steps[..i]
      invariant forall x :: x in ids ==> ids[x] < next && ids[x] !in rows
      invariant forall r :: r in rows ==> r < next
      invariant Injective(ids)
    {
      ids := ids[steps[i] := next];
      next := next + 1;
      assert steps[..i + 1] == steps[..i] + [steps[i]];
    }
    assert steps[..|steps|] == steps;
  }

  /** The statuses of the children read so far. */
  ghost predicate StatusSoFar(rows: map<nat, Row>, p: nat, todo: set<nat>, status: map<Id, Status>) {
    && (forall x :: x in status ==> exists r: nat :: IsChild(rows, r, p) && rows[r].step == x)
    && (forall r: nat :: IsChild(rows, r, p) && r !in todo ==>
          rows[r].step in status && status[rows[r].step] == rows[r].status)
  }

  /** The outputs of the succeeded ones among them. */
  ghost predicate OutputsSoFar(rows: map<nat, Row>, p: nat, todo: set<nat>, outputs: map<Id, Fields>) {
    && (forall x :: x in outputs ==> exists r: nat :: DoneRow(rows, r, p, x))
    && (forall r: nat :: IsChild(rows, r, p) && r !in todo && rows[r].status == Succeeded ==>
          rows[r].step in outputs && outputs[rows[r].step] == rows[r].outputs)
  }

  ghost predicate ReadSoFar(rows: map<nat, Row>, p: nat, todo: set<nat>, snap: Snapshot) {
    StatusSoFar(rows, p, todo, snap.status) && OutputsSoFar(rows, p, todo, snap.outputs)
  }

  lemma ReadStatusComplete(rows: map<nat, Row>, p: nat, snap: Snapshot)
    requires Unique(rows) && ReadSoFar(rows, p, {}, snap)
    ensures snap.status == Read(rows, p).status
  {
    var full := Read(rows, p);
    forall x ensures x in snap.status <==> x in full.status {
      ChildStepsAreChildren(rows, p, x);
    }
    forall x | x in full.status ensures snap.status[x] == full.status[x] {
      ChildStepsAreChildren(rows, p, x);
      var r: nat :| IsChild(rows, r, p) && rows[r].step == x;
      hide Read, ChildSteps;
      ReadIsExact(rows, p, r);
    }
  }

  lemma ReadOutputsComplete(rows: map<nat, Row>, p: nat, snap: Snapshot)
    requires Unique(rows) && ReadSoFar(rows, p, {}, snap)
    ensures snap.outputs == Read(rows, p).outputs
  {
    var full := Read(rows, p);
    hide Read, ReadSoFar, Unique;
    forall x ensures x in snap.outputs <==> x in full.outputs {
      if x in snap.outputs { ReadOutputsSound(rows, p, snap, x); }
      if x in full.outputs { ReadOutputsCovered(rows, p, snap, x); }
    }
    forall x | x in snap.outputs ensures snap.outputs[x] == full.outputs[x] {
      ReadOutputsSound(rows, p, snap, x);
    }
    hide *;
  }

  lemma ReadOutputsSound(rows: map<nat, Row>, p: nat, snap: Snapshot, x: Id)
    requires Unique(rows) && ReadSoFar(rows, p, {}, snap) && x in snap.outputs
    ensures x in Read(rows, p).outputs && snap.outputs[x] == Read(rows, p).outputs[x]
  {
    var q: nat :| DoneRow(rows, q, p, x);
    assert IsChild(rows, q, p);
    hide Read;
    ReadIsExact(rows, p, q);
  }

  lemma ReadOutputsCovered(rows: map<nat, Row>, p: nat, snap: Snapshot, x: Id)
    requires ReadSoFar(rows, p, {}, snap) && x in Read(rows, p).outputs
    ensures x in snap.outputs
  {
    var r := ChildRow(rows, p, x);
    assert IsChild(rows, r, p) && rows[r].status == Succeeded;
  }

  /** Rebuild the status and output dictionaries from the existing child rows. */
  method ReadChildren(rows: map<nat, Row>, p: nat) returns (snap: Snapshot)
    requires Unique(rows)
    ensures snap == Read(rows, p)
  {
    snap := Snapshot(map[], map[]);
    var todo := set r | r in rows && rows[r].parent == p;
    while todo != {}
      invariant forall r :: r in todo ==> IsChild(rows, r, p)
      invariant ReadSoFar(rows, p, todo, snap)
    {
      var r :| r in todo;
      var row := rows[r];
      assert IsChild(rows, r, p);
      ReadOne(rows, p, todo, snap, r);
      snap := Snapshot(snap.status[row.step := row.status],
                       if row.status == Succeeded then snap.outputs[row.step := row.outputs]
                       else snap.outputs);
      todo := todo - {r};
    }
    ReadStatusComplete(rows, p, snap);
    ReadOutputsComplete(rows, p, snap);
  }

  lemma ReadOne(rows: map<nat, Row>, p: nat, todo: set<nat>, snap: Snapshot, r: nat)
    requires Unique(rows) && ReadSoFar(rows, p, todo, snap) && IsChild(rows, r, p)
    ensures var row := rows[r];
            ReadSoFar(rows, p, todo - {r},
              Snapshot(snap.status[row.step := row.status],
                       if row.status == Succeeded then snap.outputs[row.step := row.outputs]
                       else snap.outputs))
  {
    OnlyChildOfStep(rows, p, r);
    hide Unique;
    StatusOne(rows, p, todo, snap.status, r);
    OutputsOne(rows, p, todo, snap.outputs, r);
  }

  lemma OnlyChildOfStep(rows: map<nat, Row>, p: nat, r: nat)
    requires Unique(rows) && IsChild(rows, r, p)
    ensures forall q: nat :: IsChild(rows, q, p) && rows[q].step == rows[r].step ==> q == r
  {
    forall q: nat | IsChild(rows, q, p) && rows[q].step == rows[r].step ensures q == r {
      assert SameSlot(rows[q], rows[r]);
    }
  }

  lemma StatusOne(rows: map<nat, Row>, p: nat, todo: set<nat>, status: map<Id, Status>, r: nat)
    requires StatusSoFar(rows, p, todo, status) && IsChild(rows, r, p)
    requires forall q: nat :: IsChild(rows, q, p) && rows[q].step == rows[r].step ==> q == r
    ensures StatusSoFar(rows, p, todo - {r}, status[rows[r].step := rows[r].status])
  {
  }

  lemma OutputsOne(rows: map<nat, Row>, p: nat, todo: set<nat>, outputs: map<Id, Fields>, r: nat)
    requires OutputsSoFar(rows, p, todo, outputs) && IsChild(rows, r, p)
    requires forall q: nat :: IsChild(rows, q, p) && rows[q].step == rows[r].step ==> q == r
    ensures OutputsSoFar(rows, p, todo - {r},
      if rows[r].status == Succeeded then outputs[rows[r].step := rows[r].outputs] else outputs)
  {
    assert rows[r].status == Succeeded ==> DoneRow(rows, r, p, rows[r].step);
  }

  // ---- The creation loop ----

  /** Once the loop has stopped, the remaining steps change nothing. */
  lemma {:induction false} StopsForGood(accepts: Registry, job: Job, reuse: map<Id, Fields>,
      start: Pass, order: seq<Id>, i: nat)
    requires job.HasIds() && i <= |order|
    requires !RunPass(accepts, job, reuse, start, order[..i]).Continue?
    ensures RunPass(accepts, job, reuse, start, order) == RunPass(accepts, job, reuse, start, order[..i])
    decreases |order| - i
  {
    if i == |order| {
      assert order[..i] == order;
    } else {
      assert order[..i + 1][..i] == order[..i];
      StopsForGood(accepts, job, reuse, start, order, i + 1);
    }
  }

  /** A prior found among the rows added by this very pass leads back to one that was there before. */
  lemma PriorBefore(rows: map<nat, Row>, created: map<nat, Row>, stype: string, key: Key, outputs: Fields)
    requires ReuseExact(rows, created)
    requires exists r :: r in rows + created && IsPrior((rows + created)[r], stype, key)
                      && (rows + created)[r].outputs == outputs
    ensures exists r :: r in rows && IsPrior(rows[r], stype, key) && rows[r].outputs == outputs
  {
    var r :| r in rows + created && IsPrior((rows + created)[r], stype, key)
          && (rows + created)[r].outputs == outputs;
    if r in created {
      assert created[r].status == Succeeded;
    }
  }

  lemma NoPriorBefore(rows: map<nat, Row>, created: map<nat, Row>, stype: string, key: Key)
    requires forall r :: r in rows + created ==> !IsPrior((rows + created)[r], stype, key)
    requires forall c :: c in created ==> c !in rows
    ensures forall r :: r in rows ==> !IsPrior(rows[r], stype, key)
  {
    forall r | r in rows ensures !IsPrior(rows[r], stype, key) {
      assert r in rows + created && (rows + created)[r] == rows[r];
    }
  }

  ghost function ReuseOf(s: Id, found: Option<Fields>): map<Id, Fields> {
    if found.Some? then map[s := found.value] else map[]
  }

  /** One iteration: validate, freeze inputs, look for a run to copy, add the row. */
  method CreateOne(accepts: Registry, job: Job, s: Id, ready: bool, pass: Pass, rows: map<nat, Row>)
    returns (verdict: Verdict, found: Option<Fields>)
    requires job.HasIds() && (ready <==> Ready(job.def.edges, s, pass.status))
    requires ReuseExact(rows, pass.created) && forall c :: c in pass.created ==> c !in rows
    requires forall x :: x in job.ids ==> job.ids[x] !in rows
    ensures verdict == Visit(accepts, job, ReuseOf(s, found), pass, s)
    ensures s !in pass.status && ready && verdict.Continue? ==>
      && s in Ids(job.def.steps) && job.ids[s] in verdict.pass.created
      && RowFor(job, pass, s, verdict.pass.created[job.ids[s]])
    ensures !verdict.Raise? ==> ReuseExact(rows, verdict.pass.created)
    ensures !verdict.Raise? ==> forall c :: c in verdict.pass.created ==> c !in rows
  {
    found := None;
    if s in pass.status || !ready {
      return Continue(pass), None;
    }
    if s !in Ids(job.def.steps) {
      return Raise, None;
    }
    var d := Find(job.def.steps, s);
    var inputs := FrozenInputs(d, pass.outputs, job.params);
    if !accepts(d.stype, d.config) || inputs.Err? {
      return FailParent(pass), None;
    }
    var row;
    row, found := MakeRow(job, d, inputs.value, pass.created, rows);
    FreezesIff(d, pass.outputs, job.params, inputs.value);
    hide FrozenInputs, Ready, KeyOf, Freezes;
    verdict := Continue(Add(pass, s, job.ids[s], row));
  }

  /** A copy of an earlier run with the same key if there is one, a pending child otherwise. */
  method MakeRow(job: Job, d: StepDef, inputs: Fields, created: map<nat, Row>, rows: map<nat, Row>)
    returns (row: Row, found: Option<Fields>)
    requires d.id in job.ids && ReuseExact(rows, created)
    requires forall c :: c in created ==> c !in rows
    ensures row == match found
                   case Some(outputs) => NewRow(job, d, Succeeded, inputs, outputs)
                   case None => NewRow(job, d, Pending, inputs, map[])
    ensures ReuseExact(rows, created[job.ids[d.id] := row])
  {
    var key := KeyOf(d.stype, d.config, inputs, job.ids[d.id]);
    found := FindPrior(rows + created, d.stype, key);
    hide KeyOf;
    if found.Some? {
      PriorBefore(rows, created, d.stype, key, found.value);
      row := NewRow(job, d, Succeeded, inputs, found.value);
    } else {
      NoPriorBefore(rows, created, d.stype, key);
      row := NewRow(job, d, Pending, inputs, map[]);
    }
  }

  /** Create each ready step in order, freezing its inputs and copying outputs where a key matches. */
  method CreateReady(accepts: Registry, job: Job, order: seq<Id>, start: Pass, rows: map<nat, Row>)
    returns (verdict: Verdict, ghost reuse: map<Id, Fields>)
    requires job.HasIds() && NoDup(order) && start.created == map[]
    requires forall x :: x in job.ids ==> job.ids[x] !in rows
    ensures verdict == RunPass(accepts, job, reuse, start, order)
    ensures !verdict.Raise? ==> ReuseExact(rows, verdict.pass.created)
  {
    var preds := PredecessorMap(Ids(job.def.steps), job.def.edges);
    var pass := start;
    reuse := map[];
    for i := 0 to |order|
      invariant RunPass(accepts, job, reuse, start, order[..i]) == Continue(pass)
      invariant ReuseExact(rows, pass.created)
      invariant forall c :: c in pass.created ==> c !in rows
    {
      var s := order[i];
      var ready := AllSucceededPreds(job.def.edges, Kahn.Get(preds, s, []), s, pass.status);
      var found;
      verdict, found := CreateOne(accepts, job, s, ready, pass, rows);
      reuse := ExtendPass(accepts, job, reuse, start, order, i, found);
      if !verdict.Continue? {
        StopsForGood(accepts, job, reuse, start, order, i + 1);
        return;
      }
      pass := verdict.pass;
    }
    assert order[..|order|] == order;
    verdict := Continue(pass);
  }

  lemma ExtendPass(accepts: Registry, job: Job, reuse: map<Id, Fields>, start: Pass,
                   order: seq<Id>, i: nat, found: Option<Fields>)
    returns (reuse': map<Id, Fields>)
    requires job.HasIds() && NoDup(order) && i < |order|
    requires RunPass(accepts, job, reuse, start, order[..i]).Continue?
    ensures RunPass(accepts, job, reuse', start, order[..i + 1])
         == Visit(accepts, job, ReuseOf(order[i], found),
                  RunPass(accepts, job, reuse, start, order[..i]).pass, order[i])
  {
    var s := order[i];
    reuse' := if found.Some? then reuse[s := found.value] else reuse - {s};
    assert order[..i + 1][..i] == order[..i] && s !in order[..i];
    ReuseIsLocal(accepts, job, reuse, reuse', start, order[..i]);
  }
}

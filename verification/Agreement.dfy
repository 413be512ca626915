/**
 * Two schedules of one workflow agree on everything they both compute: equal steps freeze equal
 * inputs and, once succeeded, hold equal outputs. Nothing is asked of the definition, because a
 * reference only ever resolves to a row that had already succeeded.
 */
module Agreement {
  import opened Prelude
  import opened Graphs
  import opened Refs
  import opened Workflow
  import opened Engine
  import opened EngineSafety
  import opened EngineRuns
  import opened EngineInputs
  import opened Confluence

  // ---- Resolution against tables that agree where they overlap ----

  ghost predicate Compatible(a: map<Id, Fields>, b: map<Id, Fields>) {
    forall y :: y in a && y in b ==> a[y] == b[y]
  }

  lemma {:induction false} ResolveCommon(v: Value, a: map<Id, Fields>, b: map<Id, Fields>, params: Fields)
    requires Compatible(a, b) && Resolve(v, a, params).Ok? && Resolve(v, b, params).Ok?
    ensures Resolve(v, a, params) == Resolve(v, b, params)
    decreases v
  {
    match v
    case Str(_) =>
    case Arr(items) =>
      forall i | 0 <= i < |items| ensures Resolve(items[i], a, params) == Resolve(items[i], b, params) {
        ResolveCommon(items[i], a, b, params);
      }
      assert Resolve(v, a, params).value.items == Resolve(v, b, params).value.items;
    case Obj(fields) =>
      forall k | k in fields ensures Resolve(fields[k], a, params) == Resolve(fields[k], b, params) {
        ResolveCommon(fields[k], a, b, params);
      }
      assert Resolve(v, a, params).value.fields == Resolve(v, b, params).value.fields;
    case _ =>
  }

  lemma FrozenCommon(d: StepDef, a: map<Id, Fields>, b: map<Id, Fields>, params: Fields)
    requires Compatible(a, b) && FrozenInputs(d, a, params).Ok? && FrozenInputs(d, b, params).Ok?
    ensures FrozenInputs(d, a, params) == FrozenInputs(d, b, params)
  {
    hide Resolve;
    if d.inputs != map[] { ResolveCommon(Obj(d.inputs), a, b, params); }
  }

  // ---- What one pass resolved its inputs from ----

  /** A row of the pass was resolved from outputs that the pass kept, of steps it had met before. */
  ghost predicate RowSource(job: Job, start: Pass, pass: Pass, order: seq<Id>, row: Row, i: nat,
                            outs: map<Id, Fields>)
  {
    && i < |order| && order[i] == row.step && row.step in Ids(job.def.steps)
    && FrozenInputs(Find(job.def.steps, row.step), outs, job.params) == Ok(row.inputs)
    && forall y :: y in outs ==>
         && y in pass.outputs && pass.outputs[y] == outs[y]
         && (y in start.outputs || y in order[..i])
  }

  ghost predicate RowSourced(job: Job, start: Pass, pass: Pass, order: seq<Id>, row: Row) {
    exists i, outs :: RowSource(job, start, pass, order, row, i, outs)
  }

  /** Nothing the pass recorded is later forgotten, and all of it was there or visited. */
  ghost predicate PassSourced(job: Job, start: Pass, pass: Pass, order: seq<Id>) {
    && (forall y :: y in pass.outputs ==> y in start.outputs || y in order)
    && (forall y :: y in pass.outputs ==> y in pass.status)
    && (forall c :: c in pass.created ==> RowSourced(job, start, pass, order, pass.created[c]))
  }

  lemma SourceStays(job: Job, start: Pass, pass: Pass, pass': Pass, order: seq<Id>, x: Id, row: Row)
    requires RowSourced(job, start, pass, order, row)
    requires forall y :: y in pass.outputs ==> y in pass'.outputs && pass'.outputs[y] == pass.outputs[y]
    ensures RowSourced(job, start, pass', order + [x], row)
  {
    var i: nat, outs :| RowSource(job, start, pass, order, row, i, outs);
    assert (order + [x])[..i] == order[..i];
    assert RowSource(job, start, pass', order + [x], row, i, outs);
  }

  lemma NewSource(job: Job, start: Pass, pass: Pass, pass': Pass, order: seq<Id>, row: Row)
    requires PassSourced(job, start, pass, order) && row.step in Ids(job.def.steps)
    requires FrozenInputs(Find(job.def.steps, row.step), pass.outputs, job.params) == Ok(row.inputs)
    requires forall y :: y in pass.outputs ==> y in pass'.outputs && pass'.outputs[y] == pass.outputs[y]
    ensures RowSourced(job, start, pass', order + [row.step], row)
  {
    assert (order + [row.step])[..|order|] == order;
    assert RowSource(job, start, pass', order + [row.step], row, |order|, pass.outputs);
  }

  /** What a visit does to the pass: nothing, or one new row resolved from what is recorded. */
  lemma VisitAdds(accepts: Registry, job: Job, reuse: map<Id, Fields>, pass: Pass, x: Id)
    requires job.HasIds()
    ensures var v := Visit(accepts, job, reuse, pass, x);
      !v.Raise? ==>
        || v.pass == pass
        || exists id, row :: v.pass == Add(pass, x, id, row) && AddedHere(job, pass, x, row)
  {
    hide FrozenInputs;
    var v := Visit(accepts, job, reuse, pass, x);
    if !v.Raise? && v.pass != pass {
      var d := Find(job.def.steps, x);
      var inputs := FrozenInputs(d, pass.outputs, job.params).value;
      var row := if x in reuse then NewRow(job, d, Succeeded, inputs, reuse[x])
                 else NewRow(job, d, Pending, inputs, map[]);
      assert v.pass == Add(pass, x, job.ids[x], row) && AddedHere(job, pass, x, row);
    }
  }

  ghost predicate AddedHere(job: Job, pass: Pass, x: Id, row: Row) {
    && x !in pass.status && row.step == x && x in Ids(job.def.steps)
    && FrozenInputs(Find(job.def.steps, x), pass.outputs, job.params) == Ok(row.inputs)
  }

  lemma AddSourced(job: Job, start: Pass, pass: Pass, order: seq<Id>, x: Id, id: nat, row: Row)
    requires PassSourced(job, start, pass, order) && AddedHere(job, pass, x, row)
    ensures PassSourced(job, start, Add(pass, x, id, row), order + [x])
  {
    hide RowSourced, FrozenInputs;
    var pass' := Add(pass, x, id, row);
    assert x !in pass.outputs;
    forall c | c in pass'.created ensures RowSourced(job, start, pass', order + [x], pass'.created[c]) {
      if c == id { NewSource(job, start, pass, pass', order, row); }
      else { SourceStays(job, start, pass, pass', order, x, pass.created[c]); }
    }
  }

  lemma SkipSourced(job: Job, start: Pass, pass: Pass, order: seq<Id>, x: Id)
    requires PassSourced(job, start, pass, order)
    ensures PassSourced(job, start, pass, order + [x])
  {
    hide RowSourced;
    forall c | c in pass.created ensures RowSourced(job, start, pass, order + [x], pass.created[c]) {
      SourceStays(job, start, pass, pass, order, x, pass.created[c]);
    }
  }

  lemma VisitSourced(accepts: Registry, job: Job, reuse: map<Id, Fields>, start: Pass, pass: Pass,
                     order: seq<Id>, x: Id)
    requires job.HasIds() && PassSourced(job, start, pass, order)
    ensures var v := Visit(accepts, job, reuse, pass, x);
      !v.Raise? ==> PassSourced(job, start, v.pass, order + [x])
  {
    hide PassSourced, AddedHere, Visit, Add;
    VisitAdds(accepts, job, reuse, pass, x);
    var v := Visit(accepts, job, reuse, pass, x);
    if v.Raise? {
    } else if v.pass == pass {
      SkipSourced(job, start, pass, order, x);
    } else {
      var id, row :| v.pass == Add(pass, x, id, row) && AddedHere(job, pass, x, row);
      AddSourced(job, start, pass, order, x, id, row);
    }
  }

  lemma {:induction false} PassIsSourced(accepts: Registry, job: Job, reuse: map<Id, Fields>, start: Pass,
                                         order: seq<Id>)
    requires job.HasIds() && start.created == map[] && forall y :: y in start.outputs ==> y in start.status
    ensures var v := RunPass(accepts, job, reuse, start, order);
      !v.Raise? ==> PassSourced(job, start, v.pass, order)
  {
    if order != [] {
      var n := |order| - 1;
      PassIsSourced(accepts, job, reuse, start, order[..n]);
      var v := RunPass(accepts, job, reuse, start, order[..n]);
      assert order == order[..n] + [order[n]];
      if v.Continue? {
        hide PassSourced;
        VisitSourced(accepts, job, reuse, start, v.pass, order[..n], order[n]);
      } else if v.FailParent? {
        SkipSourced(job, start, v.pass, order[..n], order[n]);
      }
    }
  }

  // ---- Every row of the table was resolved from rows created before it ----

  /** A succeeded child of step `y` with these outputs, created before rank `n`. */
  ghost predicate Backing(rows: map<nat, Row>, p: nat, rank: map<nat, nat>, n: nat, y: Id, value: Fields) {
    exists q: nat :: DoneRow(rows, q, p, y) && rows[q].outputs == value && q in rank && rank[q] < n
  }

  ghost predicate Backed(rows: map<nat, Row>, p: nat, rank: map<nat, nat>, n: nat, outs: map<Id, Fields>) {
    forall y :: y in outs ==> Backing(rows, p, rank, n, y, outs[y])
  }

  ghost predicate ResolvedFrom(rows: map<nat, Row>, row: Row, parent: Parent, rank: map<nat, nat>, n: nat,
                               outs: map<Id, Fields>)
  {
    && parent.def.Some? && row.step in Ids(parent.def.value.steps)
    && Backed(rows, row.parent, rank, n, outs)
    && FrozenInputs(Find(parent.def.value.steps, row.step), outs, parent.params) == Ok(row.inputs)
  }

  ghost predicate RowRanked(s: State, rank: map<nat, nat>, bound: nat, r: nat) {
    && r in s.rows && r in rank && rank[r] < bound && s.rows[r].parent in s.parents
    && exists outs :: ResolvedFrom(s.rows, s.rows[r], s.parents[s.rows[r].parent], rank, rank[r], outs)
  }

  /** Rows can be ranked so that each was resolved from succeeded siblings of lower rank. */
  ghost predicate Ranked(s: State, rank: map<nat, nat>, bound: nat) {
    forall r :: r in s.rows ==> RowRanked(s, rank, bound, r)
  }

  lemma BackingStays(rows: map<nat, Row>, rows': map<nat, Row>, p: nat, rank: map<nat, nat>,
                     rank': map<nat, nat>, n: nat, y: Id, value: Fields)
    requires RowsGrow(rows, rows') && Backing(rows, p, rank, n, y, value)
    requires forall r :: r in rows && r in rank ==> r in rank' && rank'[r] == rank[r]
    ensures Backing(rows', p, rank', n, y, value)
  {
    var q: nat :| DoneRow(rows, q, p, y) && rows[q].outputs == value && q in rank && rank[q] < n;
    assert RowKept(rows[q], rows'[q]);
    assert DoneRow(rows', q, p, y) && rows'[q].outputs == value;
  }

  lemma RankStays(s: State, s': State, rank: map<nat, nat>, rank': map<nat, nat>, bound: nat, bound': nat, r: nat)
    requires Grows(s, s') && RowRanked(s, rank, bound, r) && bound <= bound'
    requires forall r :: r in s.rows && r in rank ==> r in rank' && rank'[r] == rank[r]
    ensures RowRanked(s', rank', bound', r)
  {
    var row, p := s.rows[r], s.rows[r].parent;
    var outs :| ResolvedFrom(s.rows, row, s.parents[p], rank, rank[r], outs);
    assert RowKept(row, s'.rows[r]);
    hide Backing, FrozenInputs;
    forall y | y in outs ensures Backing(s'.rows, p, rank', rank'[r], y, outs[y]) {
      BackingStays(s.rows, s'.rows, p, rank, rank', rank[r], y, outs[y]);
    }
    assert ResolvedFrom(s'.rows, s'.rows[r], s'.parents[p], rank', rank'[r], outs);
  }

  ghost function PositionOf(order: seq<Id>, x: Id): (i: nat)
    requires x in order
    ensures i < |order| && order[i] == x
  {
    var i: nat :| i < |order| && order[i] == x;
    i
  }

  /** Ranks after a commit: rows of the pass come after all older ones, in visiting order. */
  ghost function Extended(rank: map<nat, nat>, bound: nat, created: map<nat, Row>, order: seq<Id>): map<nat, nat> {
    rank + map c | c in created ::
      if created[c].step in order then bound + PositionOf(order, created[c].step) else bound
  }

  lemma OldSourceIsBacking(s: State, p: nat, pass: Pass, job: Job, order: seq<Id>, rank: map<nat, nat>,
                           bound: nat, n: nat, y: Id)
    requires job.HasIds() && RowsAdded(s, p, pass, job) && Ranked(s, rank, bound)
    requires bound <= n && y in pass.outputs && y in s.locks[p].status
    ensures Backing(s.rows + pass.created, p, Extended(rank, bound, pass.created, order), n, y, pass.outputs[y])
  {
    hide RowRanked, FreshIds, Ids, Find, Ready, IsNewChild, Extended, Ranked;
    AddedGrow(s, p, pass, job);
    OldRankStays(s, rank, bound, pass.created, order);
    assert HasChild(s.rows, p, y);
    var q: nat :| IsChild(s.rows, q, p) && s.rows[q].step == y;
    RankOf(s, rank, bound, q);
    assert y in s.locks[p].outputs;
    assert DoneRow(s.rows + pass.created, q, p, y);
    assert q !in pass.created;
  }

  lemma OldRankStays(s: State, rank: map<nat, nat>, bound: nat, created: map<nat, Row>, order: seq<Id>)
    ensures forall q :: q in rank && q !in created ==>
      q in Extended(rank, bound, created, order) && Extended(rank, bound, created, order)[q] == rank[q]
  {
  }

  lemma RankOf(s: State, rank: map<nat, nat>, bound: nat, q: nat)
    requires Ranked(s, rank, bound) && q in s.rows
    ensures q in rank && rank[q] < bound
  {
    assert RowRanked(s, rank, bound, q);
  }

  lemma NewSourceIsBacking(s: State, p: nat, pass: Pass, job: Job, order: seq<Id>, rank: map<nat, nat>,
                           bound: nat, i: nat, y: Id)
    requires job.HasIds() && RowsAdded(s, p, pass, job)
    requires NoDup(order) && i < |order| && y in order[..i]
    requires y in pass.outputs && y !in s.locks[p].status
    ensures Backing(s.rows + pass.created, p, Extended(rank, bound, pass.created, order), bound + i, y, pass.outputs[y])
  {
    assert IsNewChild(job, pass, y);
    var q, rank' := job.ids[y], Extended(rank, bound, pass.created, order);
    hide RowsAdded, Ids, Find, Ready;
    PlaceBefore(order, i, y);
    assert DoneRow(s.rows + pass.created, q, p, y);
    assert rank'[q] == bound + PositionOf(order, y);
  }

  lemma PlaceBefore(order: seq<Id>, i: nat, y: Id)
    requires NoDup(order) && i < |order| && y in order[..i]
    ensures y in order && PositionOf(order, y) < i
  {
    var k :| 0 <= k < i && order[k] == y;
    assert PositionOf(order, y) == k;
  }

  /** An entry of the dictionaries a new row read is a row of the table that was created before it. */
  lemma SourceIsBacking(s: State, p: nat, pass: Pass, job: Job, order: seq<Id>, rank: map<nat, nat>,
                        bound: nat, i: nat, y: Id)
    requires job.HasIds() && RowsAdded(s, p, pass, job) && Ranked(s, rank, bound)
    requires NoDup(order) && i < |order| && y in pass.outputs
    requires y in s.locks[p].outputs || y in order[..i]
    ensures Backing(s.rows + pass.created, p, Extended(rank, bound, pass.created, order), bound + i, y, pass.outputs[y])
  {
    if y in s.locks[p].status {
      hide *;
      OldSourceIsBacking(s, p, pass, job, order, rank, bound, bound + i, y);
    } else {
      assert Coherent(s.locks[p]);
      hide Ranked, RowsAdded, Backing, NoDup;
      NewSourceIsBacking(s, p, pass, job, order, rank, bound, i, y);
    }
  }

  lemma NewRowRanked(s: State, p: nat, pass: Pass, job: Job, order: seq<Id>, rank: map<nat, nat>,
                     bound: nat, s': State, r: nat)
    requires job.HasIds() && RowsAdded(s, p, pass, job) && Ranked(s, rank, bound) && NoDup(order)
    requires r in pass.created && PassSourced(job, StartPass(s.locks[p]), pass, order)
    requires s'.rows == s.rows + pass.created && ParentsGrow(s.parents, s'.parents)
    requires job.params == s.parents[p].params
    ensures RowRanked(s', Extended(rank, bound, pass.created, order), bound + |order|, r)
  {
    var row, start := pass.created[r], StartPass(s.locks[p]);
    NewRowFacts(s, p, pass, job, r);
    assert row.parent == p && s.parents[p].def == Some(job.def);
    assert RowSourced(job, start, pass, order, row);
    var i: nat, outs :| RowSource(job, start, pass, order, row, i, outs);
    hide Ranked, RowsAdded, PassSourced, FrozenInputs, Backing, IsNewChild, Extended;
    forall y | y in outs
      ensures Backing(s'.rows, p, Extended(rank, bound, pass.created, order), bound + i, y, outs[y])
    {
      SourceIsBacking(s, p, pass, job, order, rank, bound, i, y);
    }
    RankedAt(s', rank, bound, pass.created, order, i, r, outs);
  }

  lemma RankedAt(s': State, rank: map<nat, nat>, bound: nat, created: map<nat, Row>, order: seq<Id>, i: nat,
                 r: nat, outs: map<Id, Fields>)
    requires NoDup(order) && i < |order| && r in created && created[r].step == order[i]
    requires r in s'.rows && s'.rows[r] == created[r] && created[r].parent in s'.parents
    requires ResolvedFrom(s'.rows, created[r], s'.parents[created[r].parent],
                          Extended(rank, bound, created, order), bound + i, outs)
    ensures RowRanked(s', Extended(rank, bound, created, order), bound + |order|, r)
  {
    assert PositionOf(order, created[r].step) == i;
    hide ResolvedFrom;
    assert Extended(rank, bound, created, order)[r] == bound + i;
  }

  lemma CommitRanked(accepts: Registry, s: State, p: nat, order: seq<Id>, ids: map<Id, nat>,
                     reuse: map<Id, Fields>, s': State, rank: map<nat, nat>, bound: nat)
    returns (rank': map<nat, nat>, bound': nat)
    requires Safe(s) && Ranked(s, rank, bound) && Grows(s, s')
    requires CommitStep(accepts, s, p, Some(order), ids, reuse, s')
    ensures Ranked(s', rank', bound')
  {
    hide Ranked, Grows, RowsAdded, PassSourced, Extended, Safe, CommitStep;
    if s'.rows.Keys == s.rows.Keys {
      rank', bound' := rank, bound;
      SameRanked(s, s', rank, bound);
    } else {
      var job, pass := CommitAdds(accepts, s, p, order, ids, reuse, s');
      rank', bound' := Extended(rank, bound, pass.created, order), bound + |order|;
      AddedRanked(s, p, pass, job, order, rank, bound, s');
    }
  }

  /** A commit that adds rows adds those of a pass over the sorted steps. */
  lemma CommitAdds(accepts: Registry, s: State, p: nat, order: seq<Id>, ids: map<Id, nat>,
                   reuse: map<Id, Fields>, s': State)
    returns (job: Job, pass: Pass)
    requires Safe(s) && CommitStep(accepts, s, p, Some(order), ids, reuse, s') && s'.rows != s.rows
    ensures job.HasIds() && RowsAdded(s, p, pass, job) && job.params == s.parents[p].params && NoDup(order)
    ensures PassSourced(job, StartPass(s.locks[p]), pass, order) && s'.rows == s.rows + pass.created
  {
    var outcome := Decide(accepts, p, s.parents[p], s.locks[p], Some(order), ids, reuse);
    hide RowsAdded, Decide, Settle, Safe, ReuseFound, PassSourced, SnapshotSound, SortAnswer, Coherent, NoDup;
    SettleRows(s, p, outcome);
    DefinedUnlessRejected(accepts, s.parents[p], p, s.locks[p], Some(order), ids, reuse);
    job := OutcomeAdds(accepts, s, p, Some(order), ids, reuse);
    pass := outcome.pass;
    LockedIsPending(s, p);
    SortedOnce(job.def, order);
    DecideSourced(accepts, p, s.parents[p], s.locks[p], order, job, reuse);
  }

  lemma SortedOnce(def: Definition, order: seq<Id>)
    requires SortAnswer(def, Some(order))
    ensures NoDup(order)
  {
  }

  lemma DecideSourced(accepts: Registry, p: nat, parent: Parent, snap: Snapshot, order: seq<Id>,
                      job: Job, reuse: map<Id, Fields>)
    requires parent.def.Some? && job == JobOf(p, parent, job.ids) && job.HasIds() && Coherent(snap)
    ensures var outcome := Decide(accepts, p, parent, snap, Some(order), job.ids, reuse);
      outcome.Fail? || outcome.Keep? || outcome.Complete? ==>
        PassSourced(job, StartPass(snap), outcome.pass, order)
  {
    hide PassSourced, RunPass, AllSucceeded;
    PassIsSourced(accepts, job, reuse, StartPass(snap), order);
  }

  lemma AddedRanked(s: State, p: nat, pass: Pass, job: Job, order: seq<Id>, rank: map<nat, nat>,
                    bound: nat, s': State)
    requires job.HasIds() && RowsAdded(s, p, pass, job) && Ranked(s, rank, bound) && NoDup(order)
    requires PassSourced(job, StartPass(s.locks[p]), pass, order) && Grows(s, s')
    requires s'.rows == s.rows + pass.created && job.params == s.parents[p].params
    ensures Ranked(s', Extended(rank, bound, pass.created, order), bound + |order|)
  {
    AddedGrow(s, p, pass, job);
    var rank' := Extended(rank, bound, pass.created, order);
    forall r | r in s'.rows ensures RowRanked(s', rank', bound + |order|, r) {
      if r in pass.created {
        NewRowRanked(s, p, pass, job, order, rank, bound, s', r);
      } else {
        hide RowRanked, RowsAdded, PassSourced, Grows;
        assert RowRanked(s, rank, bound, r);
        RankStays(s, s', rank, rank', bound, bound + |order|, r);
      }
    }
  }

  lemma SameRanked(s: State, s': State, rank: map<nat, nat>, bound: nat)
    requires Grows(s, s') && s'.rows.Keys == s.rows.Keys && Ranked(s, rank, bound)
    ensures Ranked(s', rank, bound)
  {
    hide Grows, RowRanked;
    forall r | r in s'.rows ensures RowRanked(s', rank, bound, r) {
      assert r in s.rows.Keys;
      RankStays(s, s', rank, rank, bound, bound, r);
    }
  }

  lemma StepRanked(accepts: Registry, s: State, e: Event, s': State, rank: map<nat, nat>, bound: nat)
    returns (rank': map<nat, nat>, bound': nat)
    requires Safe(s) && Ranked(s, rank, bound) && Step(accepts, s, e, s')
    ensures Ranked(s', rank', bound')
  {
    StepEvolves(accepts, s, e, s');
    StepParentsGrow(accepts, s, e, s');
    EvolvesGrows(s.rows, s'.rows);
    hide Safe, Ranked, Evolves, RowsGrow, ParentsGrow;
    if e.Commit? && e.order.Some? {
      CommitIs(accepts, s, e, s');
      hide Step;
      rank', bound' := CommitRanked(accepts, s, e.p, e.order.value, e.ids, e.reuse, s', rank, bound);
    } else {
      rank', bound' := rank, bound;
      NoNewRows(accepts, s, e, s');
      hide Step;
      SameRanked(s, s', rank, bound);
    }
  }

  lemma CommitIs(accepts: Registry, s: State, e: Event, s': State)
    requires Step(accepts, s, e, s') && e.Commit?
    ensures CommitStep(accepts, s, e.p, e.order, e.ids, e.reuse, s')
  {
    hide CommitStep;
  }

  lemma NoNewRows(accepts: Registry, s: State, e: Event, s': State)
    requires Safe(s) && Step(accepts, s, e, s') && !(e.Commit? && e.order.Some?)
    ensures s'.rows.Keys == s.rows.Keys
  {
    StepEvolves(accepts, s, e, s');
    hide Safe, RowKept;
    forall r | r in s'.rows ensures r in s.rows {
      if r !in s.rows {
        OnlyCommitAdds(accepts, s, e, s', r);
        hide Step;
        RejectAddsNothing(accepts, s, e.p, e.ids, e.reuse, s');
      }
    }
  }

  lemma RejectAddsNothing(accepts: Registry, s: State, p: nat, ids: map<Id, nat>, reuse: map<Id, Fields>, s': State)
    requires CommitStep(accepts, s, p, None, ids, reuse, s')
    ensures s'.rows == s.rows
  {
  }

  lemma {:induction false} RunRanked(accepts: Registry, evs: seq<Event>, s: State)
    returns (rank: map<nat, nat>, bound: nat)
    requires Run(accepts, Init(), evs, s)
    ensures Ranked(s, rank, bound)
    decreases |evs|
  {
    if evs == [] {
      rank, bound := map[], 0;
    } else {
      var n := |evs| - 1;
      var m := RunSplit(accepts, Init(), evs, s);
      rank, bound := RunRanked(accepts, evs[..n], m);
      RunSafe(accepts, Init(), evs[..n], m);
      hide Safe, Ranked, Run, Step;
      rank, bound := StepRanked(accepts, m, evs[n], s, rank, bound);
    }
  }

  // ---- Agreement of two tables ----

  /** What the two tables are known to be, as far as run `p` is concerned. */
  ghost predicate Sound(w: World, s: State, p: nat, rank: map<nat, nat>, bound: nat) {
    Typed(s) && Transparent(w, s.rows) && Ranked(s, rank, bound) && p in s.parents
  }

  ghost predicate SameSubmission(a: Parent, b: Parent) {
    a.def == b.def && a.params == b.params
  }

  /** Equal steps of one run froze equal inputs, by induction on the order of creation. */
  lemma {:induction false} RowsAgree(w: World, s: State, rank: map<nat, nat>, bound: nat,
                                     t: State, rank': map<nat, nat>, bound': nat, p: nat, r: nat, r': nat)
    requires Sound(w, s, p, rank, bound) && Sound(w, t, p, rank', bound') && SameSubmission(s.parents[p], t.parents[p])
    requires IsChild(s.rows, r, p) && IsChild(t.rows, r', p) && s.rows[r].step == t.rows[r'].step
    requires r in rank
    ensures s.rows[r].inputs == t.rows[r'].inputs
    ensures s.rows[r].status == Succeeded && t.rows[r'].status == Succeeded ==>
              s.rows[r].outputs == t.rows[r'].outputs
    decreases rank[r]
  {
    assert RowRanked(s, rank, bound, r) && RowRanked(t, rank', bound', r');
    var outs :| ResolvedFrom(s.rows, s.rows[r], s.parents[p], rank, rank[r], outs);
    var outs' :| ResolvedFrom(t.rows, t.rows[r'], t.parents[p], rank', rank'[r'], outs');
    hide FrozenInputs, RowRanked;
    forall y | y in outs && y in outs' ensures outs[y] == outs'[y] {
      assert Backing(s.rows, p, rank, rank[r], y, outs[y]) && Backing(t.rows, p, rank', rank'[r'], y, outs'[y]);
      var q: nat :| DoneRow(s.rows, q, p, y) && s.rows[q].outputs == outs[y] && q in rank && rank[q] < rank[r];
      var q': nat :| DoneRow(t.rows, q', p, y) && t.rows[q'].outputs == outs'[y] && q' in rank';
      hide Sound;
      RowsAgree(w, s, rank, bound, t, rank', bound', p, q, q');
    }
    FrozenCommon(Find(s.parents[p].def.value.steps, s.rows[r].step), outs, outs', s.parents[p].params);
    EqualInputsEqualOutputs(w, s, t, p, r, r');
  }

  lemma EqualInputsEqualOutputs(w: World, s: State, t: State, p: nat, r: nat, r': nat)
    requires Typed(s) && Transparent(w, s.rows) && Typed(t) && Transparent(w, t.rows)
    requires p in s.parents && p in t.parents && SameSubmission(s.parents[p], t.parents[p])
    requires IsChild(s.rows, r, p) && IsChild(t.rows, r', p) && s.rows[r].step == t.rows[r'].step
    requires s.rows[r].inputs == t.rows[r'].inputs
    ensures s.rows[r].status == Succeeded && t.rows[r'].status == Succeeded ==>
              s.rows[r].outputs == t.rows[r'].outputs
  {
    assert RowTyped(s.parents, r, s.rows[r]) && RowTyped(t.parents, r', t.rows[r']);
  }

  lemma RunIsSound(w: World, evs: seq<Event>, s: State, p: nat) returns (rank: map<nat, nat>, bound: nat)
    requires ReadsSettings(w) && FaithfulRun(w, Init(), evs, s) && p in s.parents
    ensures Safe(s) && Run(w.accepts, Init(), evs, s) && Sound(w, s, p, rank, bound)
    ensures forall r :: r in s.rows ==> r in rank
  {
    hide Safe, Transparent, FaithfulRun, Run, ReadsSettings;
    FaithfulIsRun(w, Init(), evs, s);
    RunSafe(w.accepts, Init(), evs, s);
    ReuseTransparency(w, evs, s);
    RowsTyped(s);
    rank, bound := RunRanked(w.accepts, evs, s);
    assert forall r :: r in s.rows ==> RowRanked(s, rank, bound, r);
    hide Ranked, RowRanked;
  }

  lemma RowsTyped(s: State)
    requires Safe(s)
    ensures Typed(s)
  {
  }

  /**
   * Schedules agree: in any two histories of faithful steps, whatever their schedules, reuse,
   * message losses and crashes, equal steps of the same run froze equal inputs and, where both
   * have succeeded, hold equal outputs. The runs themselves may be unfinished or failed.
   */
  lemma SchedulesAgree(w: World, evs: seq<Event>, s: State, evs': seq<Event>, t: State, p: nat, r: nat, r': nat)
    requires ReadsSettings(w) && FaithfulRun(w, Init(), evs, s) && FaithfulRun(w, Init(), evs', t)
    requires p in s.parents && p in t.parents && SameSubmission(s.parents[p], t.parents[p])
    requires IsChild(s.rows, r, p) && IsChild(t.rows, r', p) && s.rows[r].step == t.rows[r'].step
    ensures s.rows[r].inputs == t.rows[r'].inputs
    ensures s.rows[r].status == Succeeded && t.rows[r'].status == Succeeded ==>
              s.rows[r].outputs == t.rows[r'].outputs
  {
    var rank, bound := RunIsSound(w, evs, s, p);
    var rank', bound' := RunIsSound(w, evs', t, p);
    hide Sound, FaithfulRun, Safe, Run;
    RowsAgree(w, s, rank, bound, t, rank', bound', p, r, r');
  }
}

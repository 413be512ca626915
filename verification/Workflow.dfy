/**
 * What a workflow run is made of: the saved definition, the rows of the shared runs table, the
 * idempotency key, and one pass of the coordinator over the steps in topological order.
 */
module Workflow {
  import opened Prelude
  import opened Graphs
  import opened Refs

  datatype Status = Pending | Running | Waiting | Succeeded | Failed

  /** A step of a definition; empty `inputs` means the step has no input template. */
  datatype StepDef = StepDef(id: Id, stype: string, config: Fields, inputs: Fields)

  datatype Definition = Definition(steps: seq<StepDef>, edges: seq<Edge>)

  /** The keys of the id-to-step dictionary, in first-occurrence order. */
  function Ids(steps: seq<StepDef>): (ids: seq<Id>)
    ensures NoDup(ids)
    ensures forall x :: x in ids <==> exists d :: d in steps && d.id == x
  {
    if steps == [] then []
    else
      var front, last := steps[..|steps| - 1], steps[|steps| - 1];
      assert steps == front + [last];
      var ids := Ids(front);
      if last.id in ids then ids else ids + [last.id]
  }

  /** The dictionary entry for `id`; the last definition of an id wins. */
  function Find(steps: seq<StepDef>, id: Id): (d: StepDef)
    requires id in Ids(steps)
    ensures d in steps && d.id == id
  {
    var front, last := steps[..|steps| - 1], steps[|steps| - 1];
    if last.id == id then last else Find(front, id)
  }

  /** The last definition that carries the id is the one that counts. */
  lemma {:induction false} FindIsLast(steps: seq<StepDef>, i: nat)
    requires i < |steps| && forall j :: i < j < |steps| ==> steps[j].id != steps[i].id
    ensures steps[i].id in Ids(steps) && Find(steps, steps[i].id) == steps[i]
    decreases |steps|
  {
    var n := |steps| - 1;
    if i < n {
      FindIsLast(steps[..n], i);
      assert steps[n].id != steps[i].id;
    }
  }

  /** The ids come in the order in which they first occur. */
  lemma {:induction false} IdsInOrder(steps: seq<StepDef>, i: nat, j: nat)
    requires i < j < |steps| && forall k :: 0 <= k < j ==> steps[k].id != steps[j].id
    ensures Precedes(Ids(steps), steps[i].id, steps[j].id)
    decreases |steps|
  {
    var n := |steps| - 1;
    var front := steps[..n];
    if j < n {
      IdsInOrder(front, i, j);
      LaterId(Ids(front), Ids(steps), steps[i].id, steps[j].id);
    } else {
      assert front[i] in front && steps[i].id in Ids(front);
      assert steps[j].id !in Ids(front);
      NewId(Ids(front), steps[i].id, steps[j].id);
    }
  }

  lemma LaterId(ids: seq<Id>, more: seq<Id>, a: Id, b: Id)
    requires Precedes(ids, a, b) && ids <= more
    ensures Precedes(more, a, b)
  {
  }

  lemma NewId(ids: seq<Id>, a: Id, b: Id)
    requires a in ids
    ensures Precedes(ids + [b], a, b)
  {
    var k :| 0 <= k < |ids| && ids[k] == a;
    assert (ids + [b])[k] == a && (ids + [b])[|ids|] == b;
  }

  /** SHA-256 of a canonical document, idealised as injective; review steps draw a fresh key. */
  datatype Key = Hashed(stype: string, config: Fields, inputs: Fields) | Fresh(nonce: nat)

  const AUTO_LABEL := "step.auto_label"
  const HUMAN_REVIEW := "step.human_review"
  const THRESHOLD := "confidence_threshold"
  const DEFAULT_THRESHOLD := Num(0.35)

  /** The configuration a step acts on: auto-labelling fills in its default threshold. */
  function Effective(stype: string, config: Fields): Fields {
    if stype == AUTO_LABEL && THRESHOLD !in config then config[THRESHOLD := DEFAULT_THRESHOLD]
    else config
  }

  function KeyOf(stype: string, config: Fields, inputs: Fields, nonce: nat): Key {
    if stype == HUMAN_REVIEW then Fresh(nonce) else Hashed(stype, Effective(stype, config), inputs)
  }

  /** The configurations set the same, where an auto-labelling step without a threshold has the default. */
  ghost predicate SameSettings(stype: string, a: Fields, b: Fields) {
    && (forall k :: !(stype == "step.auto_label" && k == "confidence_threshold") ==>
          (k in a <==> k in b) && (k in a ==> a[k] == b[k]))
    && (stype == "step.auto_label" ==> Threshold(a) == Threshold(b))
  }

  ghost function Threshold(config: Fields): Value {
    if "confidence_threshold" in config then config["confidence_threshold"] else Num(0.35)
  }

  /**
   * Two runs have equal keys exactly if type, inputs and settings are equal; a review's key is equal
   * only to that of the same review.
   */
  lemma KeysEqualIff(stype: string, config: Fields, inputs: Fields, nonce: nat,
                     stype': string, config': Fields, inputs': Fields, nonce': nat)
    ensures KeyOf(stype, config, inputs, nonce) == KeyOf(stype', config', inputs', nonce') <==>
      && stype == stype'
      && if stype == "step.human_review" then nonce == nonce'
         else inputs == inputs' && SameSettings(stype, config, config')
  {
    EffectiveEqualIff(stype, config, config');
    hide Effective, SameSettings;
  }

  lemma EffectiveEqualIff(stype: string, a: Fields, b: Fields)
    ensures Effective(stype, a) == Effective(stype, b) <==> SameSettings(stype, a, b)
  {
    var x, y := Effective(stype, a), Effective(stype, b);
    if x == y {
      assert stype == "step.auto_label" ==> x["confidence_threshold"] == y["confidence_threshold"];
      forall k | !(stype == "step.auto_label" && k == "confidence_threshold")
        ensures (k in a <==> k in b) && (k in a ==> a[k] == b[k])
      {
        assert k in x <==> k in y;
      }
    }
    if SameSettings(stype, a, b) {
      forall k ensures (k in x <==> k in y) && (k in x ==> x[k] == y[k]) {}
    }
  }

  /** A step row of the runs table. `key` is the value stored as `_idem_key`. */
  datatype Row = Row(parent: nat, step: Id, stype: string, status: Status, inputs: Fields,
                     outputs: Fields, config: Fields, key: Key)

  /** A prior run whose outputs may be copied. */
  ghost predicate IsPrior(row: Row, stype: string, key: Key) {
    row.stype == stype && row.status == Succeeded && row.key == key
  }

  /** The dictionaries an advance rebuilds from the child rows it reads. */
  datatype Snapshot = Snapshot(status: map<Id, Status>, outputs: map<Id, Fields>)

  /** Progress of one advance: the dictionaries, and the rows added in this transaction. */
  datatype Pass = Pass(status: map<Id, Status>, outputs: map<Id, Fields>, created: map<nat, Row>)

  datatype Verdict = Continue(pass: Pass) | FailParent(pass: Pass) | Raise

  /** The step registry: whether a type exists and its schema accepts the configuration. */
  type Registry = (string, Fields) -> bool

  ghost predicate Ready(edges: seq<Edge>, s: Id, status: map<Id, Status>) {
    forall e | e in edges :: e.dst == s ==> e.src in status && status[e.src] == Succeeded
  }

  /** Inputs frozen at creation: the resolved template, or the run parameters without a template. */
  function FrozenInputs(d: StepDef, outputs: map<Id, Fields>, params: Fields): Result<Fields> {
    if d.inputs == map[] then Ok(params)
    else
      match Resolve(Obj(d.inputs), outputs, params)
      case Ok(v) => if v.Obj? then Ok(v.fields) else Err
      case Err => Err
  }

  /**
   * What a step's inputs are frozen to: its template with every field resolved on its own, or the run
   * parameters if it has no template.
   */
  ghost predicate Freezes(d: StepDef, outputs: map<Id, Fields>, params: Fields, inputs: Fields) {
    if d.inputs == map[] then inputs == params
    else
      && inputs.Keys == d.inputs.Keys
      && forall k :: k in d.inputs ==> Denotes(d.inputs[k], inputs[k], outputs, params)
  }

  lemma FreezesIff(d: StepDef, outputs: map<Id, Fields>, params: Fields, inputs: Fields)
    ensures FrozenInputs(d, outputs, params) == Ok(inputs) <==> Freezes(d, outputs, params, inputs)
  {
    ResolvesToIff(Obj(d.inputs), Obj(inputs), outputs, params);
    hide Resolve;
  }

  /** The parent run an advance works on, with the row ids it will assign to new children. */
  datatype Job = Job(parent: nat, def: Definition, params: Fields, ids: map<Id, nat>) {
    predicate HasIds() {
      forall x :: x in Ids(def.steps) ==> x in ids
    }
  }

  function NewRow(job: Job, d: StepDef, status: Status, inputs: Fields, outputs: Fields): Row
    requires d.id in job.ids
  {
    Row(job.parent, d.id, d.stype, status, inputs, outputs, d.config,
        KeyOf(d.stype, d.config, inputs, job.ids[d.id]))
  }

  function Add(pass: Pass, s: Id, id: nat, row: Row): Pass {
    Pass(pass.status[s := row.status],
         if row.status == Succeeded then pass.outputs[s := row.outputs] else pass.outputs,
         pass.created[id := row])
  }

  /** One iteration of the creation loop. `reuse` holds the outputs found for an equal key. */
  ghost function Visit(accepts: Registry, job: Job, reuse: map<Id, Fields>, pass: Pass, s: Id): Verdict
    requires job.HasIds()
  {
    if s in pass.status || !Ready(job.def.edges, s, pass.status) then Continue(pass)
    else if s !in Ids(job.def.steps) then Raise
    else
      var d := Find(job.def.steps, s);
      if !accepts(d.stype, d.config) then FailParent(pass)
      else
        match FrozenInputs(d, pass.outputs, job.params)
        case Err => FailParent(pass)
        case Ok(inputs) =>
          var row := if s in reuse then NewRow(job, d, Succeeded, inputs, reuse[s])
                     else NewRow(job, d, Pending, inputs, map[]);
          Continue(Add(pass, s, job.ids[s], row))
  }

  ghost function RunPass(accepts: Registry, job: Job, reuse: map<Id, Fields>, pass: Pass, order: seq<Id>)
    : Verdict
    requires job.HasIds()
  {
    if order == [] then Continue(pass)
    else
      var n := |order| - 1;
      match RunPass(accepts, job, reuse, pass, order[..n])
      case Continue(p) => Visit(accepts, job, reuse, p, order[n])
      case FailParent(p) => FailParent(p)
      case Raise => Raise
  }

  ghost predicate AllSucceeded(def: Definition, status: map<Id, Status>) {
    && def.steps != []
    && forall x | x in Ids(def.steps) :: x in status && status[x] == Succeeded
  }

  /** The row for step `s` runs it as defined, on inputs frozen from what is known now, or copies outputs. */
  ghost predicate RowFor(job: Job, pass: Pass, s: Id, row: Row)
    requires s in Ids(job.def.steps) && s in job.ids
  {
    var d := Find(job.def.steps, s);
    && row.parent == job.parent && row.step == s && row.stype == d.stype && row.config == d.config
    && row.key == KeyOf(d.stype, d.config, row.inputs, job.ids[s])
    && Freezes(d, pass.outputs, job.params, row.inputs)
  }

  /**
   * One iteration in full: a step that has a child or is not ready is passed over, an unknown one
   * raises, one whose configuration is refused or whose inputs cannot be frozen fails the run, and any
   * other gets its row, a copy if outputs were found and pending otherwise.
   */
  lemma VisitMeaning(accepts: Registry, job: Job, reuse: map<Id, Fields>, pass: Pass, s: Id)
    requires job.HasIds()
    ensures var v := Visit(accepts, job, reuse, pass, s);
      if s in pass.status || !Ready(job.def.edges, s, pass.status) then v == Continue(pass)
      else if s !in Ids(job.def.steps) then v.Raise?
      else
        var d := Find(job.def.steps, s);
        if accepts(d.stype, d.config) && exists inputs :: Freezes(d, pass.outputs, job.params, inputs) then
          && v.Continue? && job.ids[s] in v.pass.created && RowFor(job, pass, s, v.pass.created[job.ids[s]])
          && var row := v.pass.created[job.ids[s]];
          && v.pass.created == pass.created[job.ids[s] := row] && v.pass.status == pass.status[s := row.status]
          && (if s in reuse then row.status == Succeeded && row.outputs == reuse[s]
              else row.status == Pending && row.outputs == map[])
          && v.pass.outputs == if s in reuse then pass.outputs[s := reuse[s]] else pass.outputs
        else v == FailParent(pass)
  {
    if s in Ids(job.def.steps) {
      var d := Find(job.def.steps, s);
      var frozen := FrozenInputs(d, pass.outputs, job.params);
      hide FrozenInputs, Freezes, Ready;
      forall inputs ensures frozen == Ok(inputs) <==> Freezes(d, pass.outputs, job.params, inputs) {
        FreezesIff(d, pass.outputs, job.params, inputs);
      }
    }
  }

  // ---- What one pass guarantees ----

  /** A row added by this advance for step `s`. */
  ghost predicate IsNewChild(job: Job, pass: Pass, s: Id)
    requires job.HasIds()
  {
    && s in Ids(job.def.steps) && job.ids[s] in pass.created && s in pass.status
    && var row := pass.created[job.ids[s]]; var d := Find(job.def.steps, s);
    && row.parent == job.parent && row.step == s && row.stype == d.stype && row.config == d.config
    && row.status == pass.status[s] && (row.status == Pending || row.status == Succeeded)
    && row.key == KeyOf(row.stype, row.config, row.inputs, job.ids[s])
    && (row.status == Succeeded ==> s in pass.outputs && pass.outputs[s] == row.outputs)
    && Ready(job.def.edges, s, pass.status)
  }

  /** `pass` extends the snapshot by new children only, each created with its predecessors done. */
  ghost predicate Extends(job: Job, snap: Snapshot, pass: Pass)
    requires job.HasIds()
  {
    && snap.status.Keys <= pass.status.Keys
    && (forall s :: s in snap.status ==> pass.status[s] == snap.status[s])
    && (forall s :: s in snap.outputs ==> s in pass.outputs && pass.outputs[s] == snap.outputs[s])
    && (forall s :: s in pass.outputs <==> s in pass.status && pass.status[s] == Succeeded)
    && (forall s :: s in pass.status && s !in snap.status ==> IsNewChild(job, pass, s))
    && (forall r :: r in pass.created ==>
          var s := pass.created[r].step;
          s in pass.status && s !in snap.status && s in job.ids && r == job.ids[s])
  }

  ghost predicate Injective(ids: map<Id, nat>) {
    forall x, y :: x in ids && y in ids && ids[x] == ids[y] ==> x == y
  }

  ghost predicate Coherent(snap: Snapshot) {
    forall s :: s in snap.outputs <==> s in snap.status && snap.status[s] == Succeeded
  }

  lemma AddExtends(job: Job, snap: Snapshot, pass: Pass, s: Id, row: Row)
    requires job.HasIds() && Injective(job.ids) && Extends(job, snap, pass)
    requires s !in pass.status && s in Ids(job.def.steps) && Ready(job.def.edges, s, pass.status)
    requires var d := Find(job.def.steps, s);
             row == NewRow(job, d, row.status, row.inputs, row.outputs)
    requires row.status == Pending || row.status == Succeeded
    ensures Extends(job, snap, Add(pass, s, job.ids[s], row))
  {
    hide IsNewChild, Ready, Injective, Extends;
    AddedIdsMatch(job, snap, pass, s, row);
    AddedMapsExtend(job, snap, pass, s, row);
    NewChildAdded(job, pass, s, row);
    OldChildrenStay(job, snap, pass, s, row);
    assert forall t :: t in Add(pass, s, job.ids[s], row).status ==> t == s || t in pass.status;
    hide Add, NewRow, Ids, Find;
    PartsExtend(job, snap, Add(pass, s, job.ids[s], row));
  }

  lemma PartsExtend(job: Job, snap: Snapshot, pass: Pass)
    requires job.HasIds()
    requires forall s :: s in snap.status ==> s in pass.status && pass.status[s] == snap.status[s]
    requires forall s :: s in snap.outputs ==> s in pass.outputs && pass.outputs[s] == snap.outputs[s]
    requires forall s :: s in pass.outputs <==> s in pass.status && pass.status[s] == Succeeded
    requires forall s :: s in pass.status && s !in snap.status ==> IsNewChild(job, pass, s)
    requires forall r :: r in pass.created ==>
      var s := pass.created[r].step;
      s in pass.status && s !in snap.status && s in job.ids && r == job.ids[s]
    ensures Extends(job, snap, pass)
  {
    hide IsNewChild;
  }

  lemma OldChildrenStay(job: Job, snap: Snapshot, pass: Pass, s: Id, row: Row)
    requires job.HasIds() && Injective(job.ids) && Extends(job, snap, pass)
    requires s !in pass.status && s in job.ids
    ensures forall t :: t in pass.status && t !in snap.status ==> IsNewChild(job, Add(pass, s, job.ids[s], row), t)
  {
    forall t | t in pass.status && t !in snap.status ensures IsNewChild(job, Add(pass, s, job.ids[s], row), t) {
      OldChildStays(job, pass, s, row, t);
    }
  }

  /** The dictionaries still contain the snapshot, and outputs are recorded for successes only. */
  lemma AddedMapsExtend(job: Job, snap: Snapshot, pass: Pass, s: Id, row: Row)
    requires job.HasIds() && Extends(job, snap, pass) && s !in pass.status && s in job.ids
    ensures var pass' := Add(pass, s, job.ids[s], row);
            && (forall t :: t in snap.status ==> t in pass'.status && pass'.status[t] == snap.status[t])
            && (forall t :: t in snap.outputs ==> t in pass'.outputs && pass'.outputs[t] == snap.outputs[t])
            && (forall t :: t in pass'.outputs <==> t in pass'.status && pass'.status[t] == Succeeded)
  {
    hide IsNewChild, Ready;
  }

  lemma AddedIdsMatch(job: Job, snap: Snapshot, pass: Pass, s: Id, row: Row)
    requires job.HasIds() && Extends(job, snap, pass) && s !in pass.status && s in job.ids
    requires row.step == s
    ensures forall r :: r in Add(pass, s, job.ids[s], row).created ==>
              var t := Add(pass, s, job.ids[s], row).created[r].step;
              && t in Add(pass, s, job.ids[s], row).status && t !in snap.status
              && t in job.ids && r == job.ids[t]
  {
    hide IsNewChild, Ready;
  }

  lemma NewChildAdded(job: Job, pass: Pass, s: Id, row: Row)
    requires job.HasIds() && s !in pass.status && s in Ids(job.def.steps)
    requires Ready(job.def.edges, s, pass.status)
    requires var d := Find(job.def.steps, s);
             row == NewRow(job, d, row.status, row.inputs, row.outputs)
    requires row.status == Pending || row.status == Succeeded
    ensures IsNewChild(job, Add(pass, s, job.ids[s], row), s)
  {
  }

  lemma OldChildStays(job: Job, pass: Pass, s: Id, row: Row, t: Id)
    requires job.HasIds() && Injective(job.ids) && IsNewChild(job, pass, t)
    requires s !in pass.status && s in job.ids && t != s
    ensures IsNewChild(job, Add(pass, s, job.ids[s], row), t)
  {
  }

  /** However far the pass gets, what it has added extends what it read. */
  lemma {:induction false} PassExtends(accepts: Registry, job: Job, reuse: map<Id, Fields>,
                                       snap: Snapshot, order: seq<Id>)
    requires job.HasIds() && Injective(job.ids) && Coherent(snap)
    ensures var v := RunPass(accepts, job, reuse, Pass(snap.status, snap.outputs, map[]), order);
            !v.Raise? ==> Extends(job, snap, v.pass)
  {
    if order != [] {
      var n := |order| - 1;
      PassExtends(accepts, job, reuse, snap, order[..n]);
      var start := Pass(snap.status, snap.outputs, map[]);
      var v := RunPass(accepts, job, reuse, start, order[..n]);
      if v.Continue? {
        var s, pass := order[n], v.pass;
        var v' := Visit(accepts, job, reuse, pass, s);
        if v'.Continue? && v'.pass != pass {
          var d := Find(job.def.steps, s);
          var inputs := FrozenInputs(d, pass.outputs, job.params).value;
          AddExtends(job, snap, pass, s,
            if s in reuse then NewRow(job, d, Succeeded, inputs, reuse[s])
            else NewRow(job, d, Pending, inputs, map[]));
        }
      }
    }
  }

  /** No step of `visited` is left uncreated while all of its predecessors have succeeded. */
  ghost predicate ClosedOn(edges: seq<Edge>, status: map<Id, Status>, visited: seq<Id>) {
    forall s :: s in visited && Ready(edges, s, status) ==> s in status
  }

  /**
   * One-pass closure: an advance that completes its loop has created a child for every step
   * whose predecessors have all succeeded, also when reused outputs cascade through the graph.
   */
  lemma {:induction false} PassCloses(accepts: Registry, job: Job, reuse: map<Id, Fields>,
                                      start: Pass, order: seq<Id>)
    requires job.HasIds() && NoDup(order)
    requires forall i :: 0 <= i < |order| ==> PredsIn(job.def.edges, order[i], order[..i])
    ensures var v := RunPass(accepts, job, reuse, start, order);
            v.Continue? ==> ClosedOn(job.def.edges, v.pass.status, order)
  {
    if order != [] {
      var n := |order| - 1;
      var front, s := order[..n], order[n];
      assert forall i :: 0 <= i < n ==> front[..i] == order[..i];
      PassCloses(accepts, job, reuse, start, front);
      var v := RunPass(accepts, job, reuse, start, front);
      if v.Continue? {
        var v' := Visit(accepts, job, reuse, v.pass, s);
        VisitTouchesOnly(accepts, job, reuse, v.pass, s);
        hide Visit, ClosedOn;
        if v'.Continue? {
          ClosedFurther(job.def.edges, order, v.pass.status, v'.pass.status);
        }
      }
    }
  }

  lemma ClosedFurther(edges: seq<Edge>, order: seq<Id>, before: map<Id, Status>, after: map<Id, Status>)
    requires order != [] && NoDup(order)
    requires forall i :: 0 <= i < |order| ==> PredsIn(edges, order[i], order[..i])
    requires ClosedOn(edges, before, order[..|order| - 1])
    requires SameBut(before, after, order[|order| - 1])
    requires Ready(edges, order[|order| - 1], before) ==> order[|order| - 1] in after
    ensures ClosedOn(edges, after, order)
  {
    var n := |order| - 1;
    forall t | t in order && Ready(edges, t, after) ensures t in after {
      var i :| 0 <= i <= n && order[i] == t;
      assert PredsIn(edges, order[i], order[..i]);
      PredsBefore(edges, order, i, order[n]);
      hide NoDup, PredsIn;
      ReadyBefore(edges, before, after, t, order[n]);
      if i < n { assert order[..n][i] == t; }
    }
  }

  /** The two dictionaries differ at most in the entry of `s`. */
  ghost predicate SameBut(before: map<Id, Status>, after: map<Id, Status>, s: Id) {
    forall x :: x != s ==> (x in before <==> x in after) && (x in before ==> before[x] == after[x])
  }

  lemma ReadyBefore(edges: seq<Edge>, before: map<Id, Status>, after: map<Id, Status>, t: Id, s: Id)
    requires SameBut(before, after, s) && Ready(edges, t, after)
    requires forall e :: e in edges && e.dst == t ==> e.src != s
    ensures Ready(edges, t, before)
  {
  }

  /** Visiting a step changes no other step's entry, and creates it if it was ready. */
  lemma VisitTouchesOnly(accepts: Registry, job: Job, reuse: map<Id, Fields>, pass: Pass, s: Id)
    requires job.HasIds()
    ensures var v := Visit(accepts, job, reuse, pass, s);
            v.Continue? ==>
              (Ready(job.def.edges, s, pass.status) ==> s in v.pass.status) && SameBut(pass.status, v.pass.status, s)
  {
  }

  lemma PredsBefore(edges: seq<Edge>, order: seq<Id>, i: nat, s: Id)
    requires NoDup(order) && i < |order| && order[|order| - 1] == s
    requires PredsIn(edges, order[i], order[..i])
    ensures forall e :: e in edges && e.dst == order[i] ==> e.src != s
  {
    forall e | e in edges && e.dst == order[i] ensures e.src != s {
      assert e.src in order[..i];
    }
  }

  /** A pass is unaffected by what was found for steps that it does not visit. */
  lemma {:induction false} ReuseIsLocal(accepts: Registry, job: Job, reuse: map<Id, Fields>,
                                        reuse': map<Id, Fields>, start: Pass, order: seq<Id>)
    requires job.HasIds()
    requires forall x :: x in order ==> (x in reuse <==> x in reuse') && (x in reuse ==> reuse[x] == reuse'[x])
    ensures RunPass(accepts, job, reuse', start, order) == RunPass(accepts, job, reuse, start, order)
  {
    if order != [] {
      var n := |order| - 1;
      assert order[n] in order && forall x :: x in order[..n] ==> x in order;
      ReuseIsLocal(accepts, job, reuse, reuse', start, order[..n]);
    }
  }
}

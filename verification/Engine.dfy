/**
 * The workflow engine as a transition system: API calls, workers, sweeps and a lossy message
 * queue act concurrently on one runs table. An advance holds the lock on its parent row from
 * `Begin`, where it reads the children, to `Commit`, where its writes become visible; every
 * other event may happen in between.
 */
module Engine {
  import opened Prelude
  import opened Graphs
  import opened Refs
  import opened Workflow

  /** A workflow run; its definition and parameters are fixed when it is submitted. */
  datatype Parent = Parent(def: Option<Definition>, params: Fields, status: Status)

  datatype State = State(
    parents: map<nat, Parent>,
    rows: map<nat, Row>,
    locks: map<nat, Snapshot>,   // advances in flight: locked parent and what it read
    owed: multiset<nat>,         // advances that are due and have not taken the lock yet
    bells: multiset<nat>,        // doorbells of committed children not yet sent
    queue: multiset<nat>)        // messages in the stream

  datatype Event =
    | Submit(p: nat, def: Option<Definition>, params: Fields)
    | Kick(p: nat)
    | Begin(p: nat)
    | Commit(p: nat, order: Option<seq<Id>>, ids: map<Id, nat>, reuse: map<Id, Fields>)
    | Abort(p: nat)
    | LoseAdvance(p: nat)
    | Ring(r: nat)
    | LoseBell(r: nat)
    | Duplicate(r: nat)
    | Drop(r: nat)
    | Sweep(r: nat)
    | Claim(r: nat)
    | ClaimUnknown(r: nat)
    | Ignore(r: nat)
    | Finish(r: nat, outputs: Fields)
    | FailStep(r: nat)
    | Park(r: nat, gate: Fields)
    | Resume(r: nat, outputs: Fields)

  function Init(): State {
    State(map[], map[], map[], multiset{}, multiset{}, multiset{})
  }

  ghost predicate IsChild(rows: map<nat, Row>, r: nat, p: nat) {
    r in rows && rows[r].parent == p
  }

  ghost function ChildIds(rows: map<nat, Row>, p: nat): set<nat> {
    set r | r in rows && rows[r].parent == p
  }

  ghost function ChildSteps(rows: map<nat, Row>, p: nat): set<Id> {
    set r | r in ChildIds(rows, p) :: rows[r].step
  }

  /** The child row of a step; unique in every reachable state. */
  ghost function ChildRow(rows: map<nat, Row>, p: nat, s: Id): (r: nat)
    requires s in ChildSteps(rows, p)
    ensures IsChild(rows, r, p) && rows[r].step == s
  {
    var r :| r in ChildIds(rows, p) && rows[r].step == s;
    r
  }

  /** The status and output dictionaries built from the existing children. */
  ghost function Read(rows: map<nat, Row>, p: nat): Snapshot {
    Snapshot(
      map s | s in ChildSteps(rows, p) :: rows[ChildRow(rows, p, s)].status,
      map s | s in ChildSteps(rows, p) && rows[ChildRow(rows, p, s)].status == Succeeded
        :: rows[ChildRow(rows, p, s)].outputs)
  }

  predicate Terminal(status: Status) {
    status == Succeeded || status == Failed
  }

  /** What the topological sort may answer, by its contract. */
  ghost predicate SortAnswer(def: Definition, order: Option<seq<Id>>) {
    var ids := Ids(def.steps);
    match order
    case Some(l) => KahnOrder(ids, def.edges, l) && |l| == |ids|
    case None => exists l :: KahnOrder(ids, def.edges, l) && |l| != |ids|
  }

  ghost predicate FreshIds(s: State, def: Definition, ids: map<Id, nat>) {
    && Injective(ids)
    && (forall x :: x in Ids(def.steps) ==> x in ids)
    && (forall x :: x in ids ==> ids[x] !in s.rows)
  }

  function JobOf(p: nat, parent: Parent, ids: map<Id, nat>): Job
    requires parent.def.Some?
  {
    Job(p, parent.def.value, parent.params, ids)
  }

  function StartPass(snap: Snapshot): Pass {
    Pass(snap.status, snap.outputs, map[])
  }

  /** Outputs are copied only from a succeeded run of the same type whose key is equal. */
  ghost predicate ReuseFound(rows: map<nat, Row>, created: map<nat, Row>) {
    forall c :: c in created && created[c].status == Succeeded ==>
      exists r :: r in rows && IsPrior(rows[r], created[c].stype, created[c].key)
               && rows[r].outputs == created[c].outputs
  }

  /** A new child is a copy exactly when the table already held a run to copy. */
  ghost predicate ReuseExact(rows: map<nat, Row>, created: map<nat, Row>) {
    forall c :: c in created ==>
      && (created[c].status == Succeeded ==>
            exists r :: r in rows && IsPrior(rows[r], created[c].stype, created[c].key)
                     && rows[r].outputs == created[c].outputs)
      && (created[c].status == Pending ==>
            forall r :: r in rows ==> !IsPrior(rows[r], created[c].stype, created[c].key))
  }

  function PendingIds(created: map<nat, Row>): (ids: set<nat>)
    ensures forall r :: r in ids <==> r in created && created[r].status == Pending
  {
    set r | r in created && created[r].status == Pending
  }

  ghost function SetParent(s: State, p: nat, status: Status): State
    requires p in s.parents
  {
    s.(parents := s.parents[p := s.parents[p].(status := status)])
  }

  ghost function Unlock(s: State, p: nat): State {
    s.(locks := s.locks - {p})
  }

  /**
   * How an advance ends: `Quit` writes nothing (a gate is waiting, or an exception rolls back),
   * `Reject` only fails the parent, `Fail` fails it after some children were created, `Keep`
   * leaves the run going and `Complete` finalises it.
   */
  datatype Outcome = Quit | Reject | Fail(pass: Pass) | Keep(pass: Pass) | Complete(pass: Pass)

  ghost function Decide(accepts: Registry, p: nat, parent: Parent, snap: Snapshot,
                  order: Option<seq<Id>>, ids: map<Id, nat>, reuse: map<Id, Fields>): Outcome
    requires parent.def.Some? ==> JobOf(p, parent, ids).HasIds()
  {
    if parent.def.None? || order.None? || Failed in snap.status.Values then Reject
    else if Waiting in snap.status.Values then Quit
    else
      match RunPass(accepts, JobOf(p, parent, ids), reuse, StartPass(snap), order.value)
      case Raise => Quit
      case FailParent(pass) => Fail(pass)
      case Continue(pass) =>
        if AllSucceeded(parent.def.value, pass.status) then Complete(pass) else Keep(pass)
  }

  ghost function AddRows(s: State, created: map<nat, Row>): State {
    s.(rows := s.rows + created)
  }

  ghost function Bells(created: map<nat, Row>): multiset<nat> {
    multiset(PendingIds(created))
  }

  /** The single transaction an advance commits; only a surviving run gets doorbells to ring. */
  ghost function Settle(s: State, p: nat, outcome: Outcome): State
    requires p in s.parents
  {
    var open := Unlock(s, p);
    match outcome
    case Quit => open
    case Reject => SetParent(open, p, Failed)
    case Fail(pass) => SetParent(AddRows(open, pass.created), p, Failed)
    case Keep(pass) => AddRows(open, pass.created).(bells := s.bells + Bells(pass.created))
    case Complete(pass) =>
      SetParent(AddRows(open, pass.created).(bells := s.bells + Bells(pass.created)), p, Succeeded)
  }

  ghost predicate HasStatus(s: State, r: nat, status: Status) {
    r in s.rows && s.rows[r].status == status
  }

  /** The row lock on the parent is free, so a failing child may update the parent row. */
  ghost predicate ParentFree(s: State, r: nat) {
    r in s.rows && s.rows[r].parent in s.parents && s.rows[r].parent !in s.locks
  }

  ghost predicate SubmitStep(s: State, p: nat, def: Option<Definition>, params: Fields, s': State) {
    && p !in s.parents
    && s' == s.(parents := s.parents[p := Parent(def, params, Pending)], owed := s.owed + multiset{p})
  }

  /**
   * An advance that nothing owes. The modelled handlers give none to an existing run; what is proved
   * of all events holds with it too, and what is claimed to happen never needs it.
   */
  ghost predicate KickStep(s: State, p: nat, s': State) {
    p in s.parents && s' == s.(owed := s.owed + multiset{p})
  }

  ghost predicate BeginStep(s: State, p: nat, s': State) {
    && p in s.owed && p in s.parents && p !in s.locks
    && s' == s.(owed := s.owed - multiset{p},
                locks := if Terminal(s.parents[p].status) then s.locks
                         else s.locks[p := Read(s.rows, p)])
  }

  /** The choices an advance makes: a sort answer, unused row ids, and outputs it really found. */
  ghost predicate Choices(s: State, parent: Parent, order: Option<seq<Id>>, ids: map<Id, nat>) {
    parent.def.Some? ==>
      SortAnswer(parent.def.value, order) && FreshIds(s, parent.def.value, ids)
  }

  ghost predicate CommitStep(accepts: Registry, s: State, p: nat, order: Option<seq<Id>>,
                             ids: map<Id, nat>, reuse: map<Id, Fields>, s': State) {
    && p in s.parents && p in s.locks && Choices(s, s.parents[p], order, ids)
    && var outcome := Decide(accepts, p, s.parents[p], s.locks[p], order, ids, reuse);
    && (outcome.Fail? || outcome.Keep? || outcome.Complete? ==>
          ReuseFound(s.rows, outcome.pass.created))
    && s' == Settle(s, p, outcome)
  }

  ghost predicate AbortStep(s: State, p: nat, s': State) {
    p in s.locks && s' == Unlock(s, p)
  }

  ghost predicate LoseAdvanceStep(s: State, p: nat, s': State) {
    p in s.owed && s' == s.(owed := s.owed - multiset{p})
  }

  /** Messages move, multiply or vanish; none of it touches the database. */
  ghost predicate TrafficStep(s: State, e: Event, s': State) {
    match e
    case Ring(r) =>
      r in s.bells && s' == s.(bells := s.bells - multiset{r}, queue := s.queue + multiset{r})
    case LoseBell(r) => r in s.bells && s' == s.(bells := s.bells - multiset{r})
    case Duplicate(r) => r in s.queue && s' == s.(queue := s.queue + multiset{r})
    case Drop(r) => r in s.queue && s' == s.(queue := s.queue - multiset{r})
    case Sweep(r) => HasStatus(s, r, Pending) && s' == s.(queue := s.queue + multiset{r})
    case Ignore(r) =>
      r in s.queue && !HasStatus(s, r, Pending) && s' == s.(queue := s.queue - multiset{r})
    case _ => false
  }

  /** One child goes from status `from` to `to`; parents and locks are untouched. */
  ghost predicate MoveRow(s: State, r: nat, from: Status, to: Status, outputs: Fields, s': State) {
    && HasStatus(s, r, from)
    && s'.rows == s.rows[r := s.rows[r].(status := to, outputs := outputs)]
    && s'.parents == s.parents && s'.locks == s.locks && s'.bells == s.bells
  }

  /** The claim guard: only a pending row starts, and the message that named it is consumed. */
  ghost predicate ClaimStep(s: State, r: nat, s': State) {
    && r in s.queue && HasStatus(s, r, Pending)
    && MoveRow(s, r, Pending, Running, s.rows[r].outputs, s')
    && s'.queue == s.queue - multiset{r} && s'.owed == s.owed
  }

  /** A child succeeds and its parent is owed an advance. */
  ghost predicate SucceedStep(s: State, r: nat, from: Status, outputs: Fields, s': State) {
    && MoveRow(s, r, from, Succeeded, outputs, s')
    && s'.queue == s.queue && s'.owed == s.owed + multiset{s.rows[r].parent}
  }

  ghost predicate ParkStep(s: State, r: nat, gate: Fields, s': State) {
    && MoveRow(s, r, Running, Waiting, map["gate_data" := Obj(gate)], s')
    && s'.queue == s.queue && s'.owed == s.owed
  }

  /** A child fails together with its parent; the parent row must not be locked by an advance. */
  ghost predicate FailRowStep(s: State, r: nat, from: Status, s': State) {
    && HasStatus(s, r, from) && ParentFree(s, r)
    && s'.rows == s.rows[r := s.rows[r].(status := Failed)]
    && s'.parents == SetParent(s, s.rows[r].parent, Failed).parents
    && s'.locks == s.locks && s'.owed == s.owed && s'.bells == s.bells
  }

  ghost predicate Step(accepts: Registry, s: State, e: Event, s': State) {
    match e
    case Submit(p, def, params) => SubmitStep(s, p, def, params, s')
    case Kick(p) => KickStep(s, p, s')
    case Begin(p) => BeginStep(s, p, s')
    case Commit(p, order, ids, reuse) => CommitStep(accepts, s, p, order, ids, reuse, s')
    case Abort(p) => AbortStep(s, p, s')
    case LoseAdvance(p) => LoseAdvanceStep(s, p, s')
    case Claim(r) => ClaimStep(s, r, s')
    case ClaimUnknown(r) =>
      r in s.queue && FailRowStep(s, r, Pending, s') && s'.queue == s.queue - multiset{r}
    case Finish(r, outputs) => SucceedStep(s, r, Running, outputs, s')
    case FailStep(r) => FailRowStep(s, r, Running, s') && s'.queue == s.queue
    case Park(r, gate) => ParkStep(s, r, gate, s')
    case Resume(r, outputs) => SucceedStep(s, r, Waiting, outputs, s')
    case _ => TrafficStep(s, e, s')
  }

  /** `evs` leads from `s` to `s'`; events may interleave in any way their guards allow. */
  ghost predicate Run(accepts: Registry, s: State, evs: seq<Event>, s': State)
    decreases |evs|
  {
    if evs == [] then s == s'
    else
      var n := |evs| - 1;
      exists m :: Run(accepts, s, evs[..n], m) && Step(accepts, m, evs[n], s')
  }

  ghost predicate Reachable(accepts: Registry, s: State) {
    exists evs :: Run(accepts, Init(), evs, s)
  }

  // ---- Putting runs together ----

  lemma RunSnoc(accepts: Registry, s: State, evs: seq<Event>, m: State, e: Event, s': State)
    requires Run(accepts, s, evs, m) && Step(accepts, m, e, s')
    ensures Run(accepts, s, evs + [e], s')
  {
    hide Step;
    assert (evs + [e])[..|evs|] == evs;
  }

  lemma RunOne(accepts: Registry, s: State, e: Event, s': State)
    requires Step(accepts, s, e, s')
    ensures Run(accepts, s, [e], s')
  {
    hide Step;
    assert Run(accepts, s, [], s);
    RunSnoc(accepts, s, [], s, e, s');
    assert [] + [e] == [e];
  }

  lemma RunSplit(accepts: Registry, s: State, evs: seq<Event>, s': State) returns (m: State)
    requires Run(accepts, s, evs, s') && evs != []
    ensures Run(accepts, s, evs[..|evs| - 1], m) && Step(accepts, m, evs[|evs| - 1], s')
  {
    hide Step;
    m :| Run(accepts, s, evs[..|evs| - 1], m) && Step(accepts, m, evs[|evs| - 1], s');
  }

  lemma RunNothing(accepts: Registry, s: State, s': State)
    requires Run(accepts, s, [], s')
    ensures s == s'
  {
  }

  lemma {:induction false} RunAppend(accepts: Registry, s: State, evs: seq<Event>, m: State,
                                     more: seq<Event>, s': State)
    requires Run(accepts, s, evs, m) && Run(accepts, m, more, s')
    ensures Run(accepts, s, evs + more, s')
    decreases |more|
  {
    hide Step, Run;
    if more == [] {
      RunNothing(accepts, m, s');
      assert evs + more == evs;
    } else {
      var n := |more| - 1;
      var k := RunSplit(accepts, m, more, s');
      RunAppend(accepts, s, evs, m, more[..n], k);
      RunSnoc(accepts, s, evs + more[..n], k, more[n], s');
      assert evs + more[..n] + [more[n]] == evs + more;
    }
  }

  lemma RunTwo(accepts: Registry, s: State, e: Event, m: State, e': Event, s': State)
    requires Step(accepts, s, e, m) && Step(accepts, m, e', s')
    ensures Run(accepts, s, [e, e'], s')
  {
    hide Step, Run;
    RunOne(accepts, s, e, m);
    RunSnoc(accepts, s, [e], m, e', s');
    assert [e] + [e'] == [e, e'];
  }
}

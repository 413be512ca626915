/**
 * Where a crash can leave a workflow for good: the states of a live run from which no event of the
 * system brings it on, and the exact condition under which it can still reach a verdict.
 */
module EngineTraps {
  import opened Prelude
  import opened Graphs
  import opened Refs
  import opened Workflow
  import opened Engine
  import opened EngineSafety
  import opened EngineRuns
  import opened EngineProgress
  import opened EngineInputs
  import opened EngineCode
  import opened EngineCompletion

  // ---- Nothing owed, nothing locked, nothing active ----

  /** The run is live, but no advance is due or in flight and no child is left to cause one. */
  ghost predicate Trapped(s: State, p: nat) {
    && p in s.parents && s.parents[p].status == Pending
    && p !in s.owed && p !in s.locks && !HasActiveChild(s, p)
  }

  /** The run kept its record and its children. */
  ghost predicate Untouched(s: State, p: nat, s': State) {
    && p in s.parents && p in s'.parents && s'.parents[p] == s.parents[p]
    && SameChildren(s.rows, s'.rows, p)
  }

  lemma SameActive(s: State, p: nat, s': State)
    requires SameChildren(s.rows, s'.rows, p)
    ensures HasActiveChild(s, p) <==> HasActiveChild(s', p)
  {
    if r: nat :| IsChild(s.rows, r, p) && !Terminal(s.rows[r].status) { assert IsChild(s'.rows, r, p); }
    if r: nat :| IsChild(s'.rows, r, p) && !Terminal(s'.rows[r].status) { assert IsChild(s.rows, r, p); }
  }

  lemma SameChildrenTwice(a: map<nat, Row>, b: map<nat, Row>, c: map<nat, Row>, p: nat)
    requires SameChildren(a, b, p) && SameChildren(b, c, p)
    ensures SameChildren(a, c, p)
  {
    forall r: nat ensures IsChild(a, r, p) <==> IsChild(c, r, p) {
      assert IsChild(a, r, p) <==> IsChild(b, r, p);
    }
  }

  lemma SameRows(s: State, s': State, p: nat)
    requires s'.rows == s.rows
    ensures SameChildren(s.rows, s'.rows, p)
  {
  }

  /** What an event that moves one row does to the state. */
  ghost predicate OneRowMoves(s: State, r: nat, s': State) {
    && r in s.rows && !Terminal(s.rows[r].status) && r in s'.rows && SameSlot(s.rows[r], s'.rows[r])
    && s'.rows == s.rows[r := s'.rows[r]] && s'.locks == s.locks
    && (forall p :: p in s.parents && p != s.rows[r].parent ==> p in s'.parents && s'.parents[p] == s.parents[p])
    && (forall p :: p in s'.owed && p != s.rows[r].parent ==> p in s.owed)
  }

  lemma MoveEvent(accepts: Registry, s: State, e: Event, s': State)
    requires Step(accepts, s, e, s') && (e.Claim? || e.Finish? || e.Park? || e.Resume?)
    ensures OneRowMoves(s, e.r, s')
  {
  }

  lemma FailEvent(accepts: Registry, s: State, e: Event, s': State)
    requires Step(accepts, s, e, s') && (e.ClaimUnknown? || e.FailStep?)
    ensures OneRowMoves(s, e.r, s')
  {
  }

  /** An event that moves one row moves an active one, so not a child of this run. */
  lemma RowEventElsewhere(accepts: Registry, s: State, e: Event, s': State, p: nat)
    requires !HasActiveChild(s, p) && p in s.parents && Step(accepts, s, e, s')
    requires e.Claim? || e.ClaimUnknown? || e.Finish? || e.FailStep? || e.Park? || e.Resume?
    ensures Untouched(s, p, s') && s'.locks == s.locks && (p in s'.owed ==> p in s.owed)
  {
    if e.ClaimUnknown? || e.FailStep? { FailEvent(accepts, s, e, s'); } else { MoveEvent(accepts, s, e, s'); }
    hide Step;
    assert !IsChild(s.rows, e.r, p);
    OneRowElsewhere(s.rows, e.r, s'.rows[e.r], p);
    hide HasActiveChild;
  }

  lemma AdvanceEventElsewhere(accepts: Registry, s: State, e: Event, s': State, p: nat)
    requires Safe(s) && p in s.parents && p !in s.owed && Step(accepts, s, e, s')
    requires e.Submit? || e.Kick? || e.Begin? || e.Commit? || e.Abort? || e.LoseAdvance?
    requires e != Kick(p) && !(e.Commit? && e.p == p) && e != Abort(p)
    ensures Untouched(s, p, s') && (p in s'.locks <==> p in s.locks) && p !in s'.owed
    ensures p in s.locks ==> s'.locks[p] == s.locks[p]
  {
    hide Safe, SameChildren, Read, Decide, Choices, ReuseFound;
    match e
    case Commit(q, order, ids, reuse) =>
      CommitElsewhere(accepts, s, q, order, ids, reuse, s', p);
      CommitOthers(accepts, s, q, order, ids, reuse, s');
      hide CommitStep;
    case _ => SameRows(s, s', p);
  }

  lemma CommitOthers(accepts: Registry, s: State, q: nat, order: Option<seq<Id>>, ids: map<Id, nat>,
                     reuse: map<Id, Fields>, s': State)
    requires CommitStep(accepts, s, q, order, ids, reuse, s')
    ensures s'.owed == s.owed && s'.locks == s.locks - {q}
    ensures forall p :: p in s.parents && p != q ==> p in s'.parents && s'.parents[p] == s.parents[p]
  {
    hide Decide, Choices, ReuseFound, Bells;
  }

  /** What any event but an advance of this very run does to it when no child of it is active. */
  lemma EventElsewhere(accepts: Registry, s: State, e: Event, s': State, p: nat)
    requires Safe(s) && p in s.parents && p !in s.owed && !HasActiveChild(s, p)
    requires Step(accepts, s, e, s') && e != Kick(p) && !(e.Commit? && e.p == p) && e != Abort(p)
    ensures Untouched(s, p, s') && (p in s'.locks <==> p in s.locks) && p !in s'.owed
    ensures p in s.locks ==> s'.locks[p] == s.locks[p]
    ensures !HasActiveChild(s', p)
  {
    hide Safe, Step, HasActiveChild, SameChildren;
    if e.Claim? || e.ClaimUnknown? || e.Finish? || e.FailStep? || e.Park? || e.Resume? {
      RowEventElsewhere(accepts, s, e, s', p);
    } else if e.Submit? || e.Kick? || e.Begin? || e.Commit? || e.Abort? || e.LoseAdvance? {
      AdvanceEventElsewhere(accepts, s, e, s', p);
    } else {
      TrafficEvent(accepts, s, e, s');
      SameRows(s, s', p);
    }
    SameActive(s, p, s');
  }

  /** A trapped run stays as it is through every event, crashes included, but an unowed advance. */
  lemma {:induction false} TrappedForGood(accepts: Registry, s: State, evs: seq<Event>, s': State, p: nat)
    requires Safe(s) && Trapped(s, p) && Run(accepts, s, evs, s')
    requires forall i :: 0 <= i < |evs| ==> evs[i] != Kick(p)
    ensures Trapped(s', p) && Untouched(s, p, s')
    decreases |evs|
  {
    hide Safe, Step, HasActiveChild, SameChildren;
    if evs == [] {
      RunNothing(accepts, s, s');
      SameRows(s, s', p);
    } else {
      var n := |evs| - 1;
      var m := RunSplit(accepts, s, evs, s');
      hide Run;
      TrappedForGood(accepts, s, evs[..n], m, p);
      RunSafe(accepts, s, evs[..n], m);
      NeedsLock(accepts, m, evs[n], s', p);
      EventElsewhere(accepts, m, evs[n], s', p);
      SameChildrenTwice(s.rows, m.rows, s'.rows, p);
    }
  }

  lemma NeedsLock(accepts: Registry, s: State, e: Event, s': State, p: nat)
    requires Step(accepts, s, e, s') && p !in s.locks
    ensures !(e.Commit? && e.p == p) && e != Abort(p)
  {
    hide Decide, Settle, Choices, ReuseFound;
  }

  // ---- An advance in flight that will only copy ----

  /** Where the advance in flight ends if every run that the table holds now is copied. */
  ghost function Outlook(code: Code, s: State, p: nat): Dry
    requires p in s.parents && s.parents[p].def.Some? && p in s.locks
    requires code.sort(s.parents[p].def.value).Some?
  {
    var parent := s.parents[p];
    DryRun(code.Accepts(), parent.def.value, parent.params, s.rows, s.locks[p], code.sort(parent.def.value).value)
  }

  /** It fails the run, finds all steps done, or has a step to execute. */
  ghost predicate Acts(def: Definition, snap: Snapshot, dry: Dry) {
    || dry.Failing?
    || (dry.Going? && (AllSucceeded(def, dry.status) || !OnlyCopies(snap, dry)))
  }

  /**
   * Committing on what was read does something: it finds a cycle, or the advance acts once it has
   * copied all there is to copy; a gate that waited when the children were read stops the latter.
   */
  ghost predicate Stirs(code: Code, s: State, p: nat)
    requires p in s.parents && s.parents[p].def.Some? && p in s.locks
  {
    var def, snap := s.parents[p].def.value, s.locks[p];
    code.sort(def).None? || (Waiting !in snap.status.Values && Acts(def, snap, Outlook(code, s, p)))
  }

  /** The run can be brought on: an advance is owed, a child is active, or the one in flight stirs. */
  ghost predicate Movable(code: Code, s: State, p: nat)
    requires p in s.parents && s.parents[p].def.Some?
  {
    p in s.owed || HasActiveChild(s, p) || (p in s.locks && Stirs(code, s, p))
  }

  /** A run whose only hope is an advance that does not stir. */
  ghost predicate Idle(code: Code, s: State, p: nat) {
    && Live(s, p) && p !in s.owed && p in s.locks && !HasActiveChild(s, p)
    && !Stirs(code, s, p)
  }

  /** The run kept its record and its children, and got at most copies. */
  ghost predicate OnlyCopied(s: State, p: nat, s': State) {
    && p in s.parents && p in s'.parents && s'.parents[p] == s.parents[p]
    && (forall r: nat :: IsChild(s.rows, r, p) ==> IsChild(s'.rows, r, p) && s'.rows[r] == s.rows[r])
    && (forall r: nat :: IsChild(s'.rows, r, p) && !IsChild(s.rows, r, p) ==> s'.rows[r].status == Succeeded)
  }

  lemma UntouchedCopiesNothing(s: State, p: nat, s': State)
    requires Untouched(s, p, s')
    ensures OnlyCopied(s, p, s')
  {
  }

  lemma OnlyCopiedTwice(a: State, b: State, c: State, p: nat)
    requires OnlyCopied(a, p, b) && OnlyCopied(b, p, c)
    ensures OnlyCopied(a, p, c)
  {
    forall r: nat | IsChild(a.rows, r, p) ensures IsChild(c.rows, r, p) && c.rows[r] == a.rows[r] {
      assert IsChild(b.rows, r, p);
    }
    forall r: nat | IsChild(c.rows, r, p) && !IsChild(a.rows, r, p) ensures c.rows[r].status == Succeeded {
      if IsChild(b.rows, r, p) { assert c.rows[r] == b.rows[r]; }
    }
  }

  /** What the code's sort answers for a definition that does not mislead it covers the steps in order. */
  lemma SortCovers(code: Code, def: Definition)
    requires Sorts(code) && !Misleads(def) && code.sort(def).Some?
    ensures var order := code.sort(def).value;
      && NoDup(order) && (forall x :: x in order <==> x in Ids(def.steps))
      && forall i :: 0 <= i < |order| ==> PredsIn(def.edges, order[i], order[..i])
  {
    assert SortAnswer(def, code.sort(def));
    OrderCovers(def, code.sort(def).value);
  }

  /** An advance that does not act just copies. */
  lemma IdleOutlook(code: Code, s: State, p: nat)
    requires Sorts(code) && Live(s, p) && p in s.locks && code.sort(s.parents[p].def.value).Some?
    requires !Acts(s.parents[p].def.value, s.locks[p], Outlook(code, s, p))
    ensures OnlyCopies(s.locks[p], Outlook(code, s, p))
    ensures !AllSucceeded(s.parents[p].def.value, Outlook(code, s, p).status)
  {
    var parent, order := s.parents[p], code.sort(s.parents[p].def.value).value;
    SortCovers(code, parent.def.value);
    hide Sorts, Live, DryRun, AllSucceeded, OnlyCopies;
    DryNeverRaises(code.Accepts(), parent.def.value, parent.params, s.rows, s.locks[p], order);
  }

  lemma ActsStays(code: Code, s: State, s': State, p: nat)
    requires Sorts(code) && ReadsSettings(code.world) && Live(s, p) && p in s.locks
    requires p in s'.parents && s'.parents[p] == s.parents[p] && p in s'.locks && s'.locks[p] == s.locks[p]
    requires RowsGrow(s.rows, s'.rows) && Typed(s') && Transparent(code.world, s'.rows)
    requires code.sort(s.parents[p].def.value).Some?
    requires !Acts(s.parents[p].def.value, s.locks[p], Outlook(code, s, p))
    ensures Outlook(code, s', p) == Outlook(code, s, p)
  {
    var parent, order := s.parents[p], code.sort(s.parents[p].def.value).value;
    IdleOutlook(code, s, p);
    hide Sorts, ReadsSettings, Live, RowsGrow, Typed, Transparent, DryRun, OnlyCopies, Acts;
    DryStays(code.world, s, s', parent.def.value, parent.params, s.locks[p], order);
  }

  /** Nothing that happens elsewhere can stir an idle advance. */
  lemma StaysIdle(code: Code, s: State, s': State, p: nat)
    requires Sorts(code) && ReadsSettings(code.world) && Idle(code, s, p)
    requires p in s'.parents && s'.parents[p] == s.parents[p] && p in s'.locks && s'.locks[p] == s.locks[p]
    requires RowsGrow(s.rows, s'.rows) && Typed(s') && Transparent(code.world, s'.rows)
    requires p !in s'.owed && !HasActiveChild(s', p)
    ensures Idle(code, s', p)
  {
    assert Live(s', p);
    hide Sorts, ReadsSettings, Live, RowsGrow, Typed, Transparent, Outlook, Acts, HasActiveChild;
    if Waiting !in s.locks[p].status.Values {
      assert p in s.parents && s.parents[p].def.Some? by { LiveFacts(s, p); }
      ActsStays(code, s, s', p);
    }
  }

  // ---- Where the advance in flight ends ----

  /** The choices of a commit as the code makes it. */
  ghost predicate Chosen(code: Code, s: State, p: nat, order: Option<seq<Id>>, ids: map<Id, nat>,
                         reuse: map<Id, Fields>)
  {
    && p in s.parents && p in s.locks && s.parents[p].def.Some?
    && Choices(s, s.parents[p], order, ids) && CodedCommit(code, s, p, order, ids, reuse)
  }

  lemma ChosenFacts(code: Code, s: State, p: nat, order: Option<seq<Id>>, ids: map<Id, nat>,
                    reuse: map<Id, Fields>)
    requires Chosen(code, s, p, order, ids, reuse)
    ensures order == code.sort(s.parents[p].def.value) && JobOf(p, s.parents[p], ids).HasIds()
    ensures Injective(ids) && forall y :: y in ids ==> ids[y] !in s.rows
    ensures var outcome := Decide(code.Accepts(), p, s.parents[p], s.locks[p], order, ids, reuse);
      outcome.Fail? || outcome.Keep? || outcome.Complete? ==> ReuseExact(s.rows, outcome.pass.created)
  {
    hide Decide, ReuseExact, SortAnswer;
  }

  /** Past the short circuits, the outcome of an advance is that of its pass. */
  lemma OutcomeOfPass(accepts: Registry, p: nat, parent: Parent, snap: Snapshot, order: Option<seq<Id>>,
                      ids: map<Id, nat>, reuse: map<Id, Fields>)
    requires parent.def.Some? && order.Some? && JobOf(p, parent, ids).HasIds()
    requires Failed !in snap.status.Values && Waiting !in snap.status.Values
    ensures var v := RunPass(accepts, JobOf(p, parent, ids), reuse, StartPass(snap), order.value);
      Decide(accepts, p, parent, snap, order, ids, reuse) == match v
        case Raise => Quit
        case FailParent(pass) => Fail(pass)
        case Continue(pass) => if AllSucceeded(parent.def.value, pass.status) then Complete(pass) else Keep(pass)
  {
    hide RunPass, AllSucceeded;
  }

  /** The pass of an advance that copies as the code does ends where the dry run ended. */
  lemma PassAsForeseen(code: Code, s: State, p: nat, order: Option<seq<Id>>, ids: map<Id, nat>,
                       reuse: map<Id, Fields>) returns (v: Verdict)
    requires Sorts(code) && ReadsSettings(code.world) && Safe(s) && Transparent(code.world, s.rows)
    requires Live(s, p) && Chosen(code, s, p, order, ids, reuse) && order.Some?
    requires Waiting !in s.locks[p].status.Values
    ensures order == code.sort(s.parents[p].def.value) && JobOf(p, s.parents[p], ids).HasIds()
    ensures v == RunPass(code.Accepts(), JobOf(p, s.parents[p], ids), reuse, StartPass(s.locks[p]), order.value)
    ensures Shows(Outlook(code, s, p), v)
    ensures var outcome := Decide(code.Accepts(), p, s.parents[p], s.locks[p], order, ids, reuse);
      match v
        case Raise => false
        case FailParent(pass) => outcome == Fail(pass)
        case Continue(pass) =>
          outcome == if AllSucceeded(s.parents[p].def.value, pass.status) then Complete(pass) else Keep(pass)
  {
    var job := JobOf(p, s.parents[p], ids);
    ChosenFacts(code, s, p, order, ids, reuse);
    SortCovers(code, job.def);
    LockedIsPending(s, p);
    NoFailedRead(s, p);
    SafeIsTyped(s);
    hide Sorts, ReadsSettings, Safe, Transparent, Typed, Live, Chosen, SnapshotSound, Coherent, Injective, Decide;
    hide RunPass, DryRun, ReuseExact, AllSucceeded, Shows, Ids;
    v := RunPass(code.Accepts(), job, reuse, StartPass(s.locks[p]), order.value);
    OutcomeOfPass(code.Accepts(), p, s.parents[p], s.locks[p], order, ids, reuse);
    NeverRaises(code.Accepts(), job, reuse, StartPass(s.locks[p]), order.value);
    PassIsDry(code.world, s, job, reuse, s.locks[p], order.value);
  }

  lemma NoFailedRead(s: State, p: nat)
    requires Safe(s) && p in s.locks
    ensures Failed !in s.locks[p].status.Values
  {
    LockedIsPending(s, p);
    hide Safe;
  }

  lemma SafeIsTyped(s: State)
    requires Safe(s)
    ensures Typed(s)
  {
  }

  ghost predicate AllCopies(created: map<nat, Row>) {
    forall c :: c in created ==> created[c].status == Succeeded
  }

  /** An idle advance writes nothing or adds copies only. */
  lemma IdleOutcome(code: Code, s: State, p: nat, order: Option<seq<Id>>, ids: map<Id, nat>,
                    reuse: map<Id, Fields>) returns (outcome: Outcome)
    requires Sorts(code) && ReadsSettings(code.world) && Safe(s) && Transparent(code.world, s.rows)
    requires Idle(code, s, p) && Chosen(code, s, p, order, ids, reuse)
    ensures JobOf(p, s.parents[p], ids).HasIds()
    ensures outcome == Decide(code.Accepts(), p, s.parents[p], s.locks[p], order, ids, reuse)
    ensures outcome.Quit? || (outcome.Keep? && AllCopies(outcome.pass.created))
  {
    ChosenFacts(code, s, p, order, ids, reuse);
    outcome := Decide(code.Accepts(), p, s.parents[p], s.locks[p], order, ids, reuse);
    NoFailedRead(s, p);
    hide Sorts, ReadsSettings, Safe, Transparent, Live, HasActiveChild, Outlook, Acts, ReuseExact, Injective;
    if Waiting in s.locks[p].status.Values {
      hide RunPass, Chosen;
    } else {
      hide Decide;
      IdleOutlook(code, s, p);
      var v := PassAsForeseen(code, s, p, order, ids, reuse);
      var job := OutcomeAdds(code.Accepts(), s, p, order, ids, reuse);
      hide Chosen, RunPass, RowsAdded, AllSucceeded, OnlyCopies;
      AddedCopies(s, p, job, v.pass, Outlook(code, s, p));
    }
  }

  lemma AddedCopies(s: State, p: nat, job: Job, pass: Pass, dry: Dry)
    requires job.HasIds() && RowsAdded(s, p, pass, job) && p in s.locks
    requires OnlyCopies(s.locks[p], dry) && dry.status == pass.status
    ensures AllCopies(pass.created)
  {
    forall c | c in pass.created ensures pass.created[c].status == Succeeded {
      NewRowFacts(s, p, pass, job, c);
    }
  }

  /** Committing an idle advance leaves nothing to bring the run on. */
  lemma IdleCommit(code: Code, s: State, p: nat, order: Option<seq<Id>>, ids: map<Id, nat>,
                   reuse: map<Id, Fields>, s': State)
    requires Sorts(code) && ReadsSettings(code.world) && Safe(s) && Transparent(code.world, s.rows)
    requires Idle(code, s, p) && CodedCommit(code, s, p, order, ids, reuse)
    requires CommitStep(code.Accepts(), s, p, order, ids, reuse, s')
    ensures Trapped(s', p) && OnlyCopied(s, p, s')
  {
    LiveFacts(s, p);
    assert Chosen(code, s, p, order, ids, reuse);
    var outcome := IdleOutcome(code, s, p, order, ids, reuse);
    hide Sorts, ReadsSettings, Transparent, Chosen, CodedCommit, Decide, Choices, ReuseFound, Settle, Live;
    if outcome.Keep? {
      var job := OutcomeAdds(code.Accepts(), s, p, order, ids, reuse);
      AddedGrow(s, p, outcome.pass, job);
      hide RowsAdded;
    }
    hide Safe, Stirs, HasActiveChild, AllCopies;
    CopiesSettle(s, p, outcome);
  }

  lemma CopiesSettle(s: State, p: nat, outcome: Outcome)
    requires p in s.parents && s.parents[p].status == Pending && p !in s.owed && !HasActiveChild(s, p)
    requires outcome.Quit? || (outcome.Keep? && AllCopies(outcome.pass.created))
    requires outcome.Keep? ==> forall r :: r in s.rows ==> r !in outcome.pass.created
    ensures Trapped(Settle(s, p, outcome), p) && OnlyCopied(s, p, Settle(s, p, outcome))
  {
    hide Bells;
    var s' := Settle(s, p, outcome);
    forall r: nat | IsChild(s'.rows, r, p) ensures Terminal(s'.rows[r].status) {
      assert r in s.rows ==> IsChild(s.rows, r, p);
    }
  }

  lemma IdleStep(code: Code, s: State, e: Event, s': State, p: nat)
    requires Sorts(code) && ReadsSettings(code.world) && Safe(s) && Transparent(code.world, s.rows)
    requires Idle(code, s, p) && AsCoded(code, s, e) && Step(code.Accepts(), s, e, s')
    requires Safe(s') && Transparent(code.world, s'.rows)
    ensures OnlyCopied(s, p, s') && (Idle(code, s', p) || Trapped(s', p))
  {
    if e.Commit? && e.p == p {
      CommitTaken(code.Accepts(), s, e, s');
      hide Sorts, ReadsSettings, Safe, Transparent, Idle, CodedCommit, Step, CommitStep, Trapped, OnlyCopied;
      IdleCommit(code, s, p, e.order, e.ids, e.reuse, s');
    } else {
      hide Sorts, ReadsSettings, Safe, Transparent, Idle, AsCoded, Step, Trapped, OnlyCopied;
      IdleElsewhere(code, s, e, s', p);
    }
  }

  lemma IdleElsewhere(code: Code, s: State, e: Event, s': State, p: nat)
    requires Sorts(code) && ReadsSettings(code.world) && Safe(s) && Safe(s') && Transparent(code.world, s'.rows)
    requires Idle(code, s, p) && AsCoded(code, s, e) && Step(code.Accepts(), s, e, s') && !(e.Commit? && e.p == p)
    ensures OnlyCopied(s, p, s') && Idle(code, s', p)
  {
    hide *;
    CodedIs(code, s, e);
    UndisturbedLeaves(e, p);
    IdleFacts(code, s, p);
    StepEvolves(code.Accepts(), s, e, s');
    EvolvesGrows(s.rows, s'.rows);
    SafeIsTyped(s');
    EventElsewhere(code.Accepts(), s, e, s', p);
    UntouchedFacts(s, p, s');
    StaysIdle(code, s, s', p);
  }

  lemma IdleFacts(code: Code, s: State, p: nat)
    requires Idle(code, s, p)
    ensures p in s.parents && p !in s.owed && p in s.locks && !HasActiveChild(s, p)
  {
    hide Stirs, HasActiveChild, Misleads;
  }

  lemma UntouchedFacts(s: State, p: nat, s': State)
    requires Untouched(s, p, s')
    ensures OnlyCopied(s, p, s') && p in s.parents && p in s'.parents && s'.parents[p] == s.parents[p]
  {
    hide SameChildren;
    UntouchedCopiesNothing(s, p, s');
  }

  lemma UndisturbedLeaves(e: Event, p: nat)
    requires Undisturbed(e)
    ensures e != Kick(p) && e != Abort(p)
  {
  }

  lemma CommitTaken(accepts: Registry, s: State, e: Event, s': State)
    requires Step(accepts, s, e, s') && e.Commit?
    ensures CommitStep(accepts, s, e.p, e.order, e.ids, e.reuse, s')
  {
    hide CommitStep;
  }

  /** An advance that stirs nothing leaves the run where no event of the code brings it on. */
  lemma {:induction false} IdleForGood(code: Code, s: State, evs: seq<Event>, s': State, p: nat)
    requires Sorts(code) && ReadsSettings(code.world) && Safe(s) && Transparent(code.world, s.rows)
    requires (Idle(code, s, p) || Trapped(s, p)) && CodeRun(code, s, evs, s')
    ensures OnlyCopied(s, p, s') && (Idle(code, s', p) || Trapped(s', p))
    ensures Safe(s') && Transparent(code.world, s'.rows)
    decreases |evs|
  {
    hide Sorts, ReadsSettings, Safe, Transparent, Step, AsCoded, CodeRun, Idle, Trapped, OnlyCopied;
    if evs == [] {
      CodeNothing(code, s);
      StandsStill(code, s, p);
    } else {
      var n := |evs| - 1;
      var m := CodeSplit(code, s, evs, s');
      IdleForGood(code, s, evs[..n], m, p);
      CodedIs(code, m, evs[n]);
      StepSafe(code.Accepts(), m, evs[n], s');
      StepTransparent(code.world, m, evs[n], s');
      if Idle(code, m, p) {
        IdleStep(code, m, evs[n], s', p);
      } else {
        TrappedStep(code.Accepts(), m, evs[n], s', p);
      }
      OnlyCopiedTwice(s, m, s', p);
    }
  }

  lemma StandsStill(code: Code, s: State, p: nat)
    requires Idle(code, s, p) || Trapped(s, p)
    ensures OnlyCopied(s, p, s)
  {
    hide Stirs, HasActiveChild;
  }

  lemma TrappedStep(accepts: Registry, s: State, e: Event, s': State, p: nat)
    requires Safe(s) && Trapped(s, p) && Step(accepts, s, e, s') && Undisturbed(e)
    ensures OnlyCopied(s, p, s') && Trapped(s', p)
  {
    hide Safe, Step, HasActiveChild, SameChildren;
    NeedsLock(accepts, s, e, s', p);
    EventElsewhere(accepts, s, e, s', p);
    UntouchedCopiesNothing(s, p, s');
  }

  // ---- What moves a movable run ----

  /** What stirs ends the run or creates a step to execute. */
  lemma StirringOutcome(code: Code, s: State, p: nat, order: Option<seq<Id>>, ids: map<Id, nat>,
                        reuse: map<Id, Fields>) returns (outcome: Outcome)
    requires Sorts(code) && ReadsSettings(code.world) && Safe(s) && Transparent(code.world, s.rows)
    requires Live(s, p) && Chosen(code, s, p, order, ids, reuse) && Stirs(code, s, p)
    ensures JobOf(p, s.parents[p], ids).HasIds()
    ensures outcome == Decide(code.Accepts(), p, s.parents[p], s.locks[p], order, ids, reuse)
    ensures !outcome.Quit?
    ensures outcome.Keep? ==>
      exists x :: x in outcome.pass.status && x !in s.locks[p].status && outcome.pass.status[x] != Succeeded
  {
    ChosenFacts(code, s, p, order, ids, reuse);
    outcome := Decide(code.Accepts(), p, s.parents[p], s.locks[p], order, ids, reuse);
    hide Sorts, ReadsSettings, Safe, Transparent, Live, Outlook, ReuseExact, Injective, AllSucceeded;
    if order.None? {
      hide RunPass, Chosen;
    } else {
      hide Decide;
      var v := PassAsForeseen(code, s, p, order, ids, reuse);
      hide Chosen, RunPass;
    }
  }

  /** Committing what stirs ends the run or leaves it an active child. */
  lemma StirringCommit(code: Code, s: State, p: nat) returns (e: Event, s': State)
    requires Sorts(code) && ReadsSettings(code.world) && Safe(s) && Transparent(code.world, s.rows)
    requires Live(s, p) && p in s.locks && Stirs(code, s, p)
    ensures Step(code.Accepts(), s, e, s') && AsCoded(code, s, e)
    ensures p in s'.parents && s'.parents[p].def == s.parents[p].def
    ensures Terminal(s'.parents[p].status) || (s'.parents[p].status == Pending && HasActiveChild(s', p))
  {
    LiveFacts(s, p);
    PendingRun(s, p);
    hide Sorts, ReadsSettings, Safe, Transparent, Live, Stirs, HasActiveChild, AsCoded, Step;
    var order, ids, reuse;
    order, ids, reuse, s' := CommitOne(code, s, p);
    e := Commit(p, order, ids, reuse);
    CommitIsStep(code, s, p, order, ids, reuse, s');
    var outcome := StirredAs(code, s, p, order, ids, reuse, s');
    hide CommitStep, CodedCommit;
    if outcome.Keep? {
      var job := OutcomeAdds(code.Accepts(), s, p, order, ids, reuse);
      NewChildIsActive(s, p, job, outcome.pass, s');
    } else {
      SettleEnds(s, p, outcome);
    }
  }

  lemma StirredAs(code: Code, s: State, p: nat, order: Option<seq<Id>>, ids: map<Id, nat>,
                  reuse: map<Id, Fields>, s': State) returns (outcome: Outcome)
    requires Sorts(code) && ReadsSettings(code.world) && Safe(s) && Transparent(code.world, s.rows)
    requires Live(s, p) && p in s.parents && s.parents[p].def.Some? && p in s.locks && Stirs(code, s, p)
    requires CommitStep(code.Accepts(), s, p, order, ids, reuse, s') && CodedCommit(code, s, p, order, ids, reuse)
    ensures Choices(s, s.parents[p], order, ids) && JobOf(p, s.parents[p], ids).HasIds()
    ensures outcome == Decide(code.Accepts(), p, s.parents[p], s.locks[p], order, ids, reuse)
    ensures s' == Settle(s, p, outcome) && !outcome.Quit?
    ensures outcome.Keep? ==>
      exists x :: x in outcome.pass.status && x !in s.locks[p].status && outcome.pass.status[x] != Succeeded
  {
    hide Sorts, ReadsSettings, Safe, Transparent, Live, Stirs, Choices, Decide, ReuseFound, Settle;
    assert Chosen(code, s, p, order, ids, reuse);
    outcome := StirringOutcome(code, s, p, order, ids, reuse);
  }

  lemma SettleEnds(s: State, p: nat, outcome: Outcome)
    requires p in s.parents && !outcome.Quit? && !outcome.Keep?
    ensures p in Settle(s, p, outcome).parents && Terminal(Settle(s, p, outcome).parents[p].status)
  {
    hide Bells;
  }

  lemma NewChildIsActive(s: State, p: nat, job: Job, pass: Pass, s': State)
    requires job.HasIds() && RowsAdded(s, p, pass, job) && s' == Settle(s, p, Keep(pass))
    requires exists x :: x in pass.status && x !in s.locks[p].status && pass.status[x] != Succeeded
    ensures HasActiveChild(s', p) && p in s'.parents && s'.parents[p].status == Pending
  {
    var x :| x in pass.status && x !in s.locks[p].status && pass.status[x] != Succeeded;
    assert IsNewChild(job, pass, x);
    var r := job.ids[x];
    hide RowsAdded, IsNewChild, Bells;
    assert IsChild(s'.rows, r, p) && !Terminal(s'.rows[r].status);
  }

  /** An active child can succeed, whatever else is going on, and then an advance is owed. */
  lemma {:induction false} ActiveReachesOwed(code: Code, s: State, p: nat, r: nat)
    returns (evs: seq<Event>, s': State)
    requires SameRun(s, p, s) && IsChild(s.rows, r, p) && !Terminal(s.rows[r].status)
    ensures CodeRun(code, s, evs, s') && s'.parents == s.parents && p in s'.owed
    decreases Weight(s.rows[r].status)
  {
    hide CodeRun, Step, AsCoded, IsReview;
    var first, m;
    if s.rows[r].status == Pending {
      first, m := Started(code, s, p, r);
    } else if s.rows[r].status == Running && IsReview(s, r) {
      m := ParkOne(code, s, p, r);
      first := [Park(r, map[])];
      CodeOne(code, s, Park(r, map[]), m);
    } else {
      var e;
      e, s' := SucceedOne(code, s, p, r);
      evs := [e];
      CodeOne(code, s, e, s');
      return;
    }
    var rest;
    rest, s' := ActiveReachesOwed(code, m, p, r);
    evs := first + rest;
    CodeAppend(code, s, first, m, rest, s');
  }

  lemma Started(code: Code, s: State, p: nat, r: nat) returns (evs: seq<Event>, m: State)
    requires SameRun(s, p, s) && IsChild(s.rows, r, p) && s.rows[r].status == Pending
    ensures CodeRun(code, s, evs, m) && m.parents == s.parents && SameRun(m, p, m)
    ensures IsChild(m.rows, r, p) && m.rows[r].status == Running
  {
    var q := SweepOne(code, s, p, r);
    hide CodeRun, Step, AsCoded;
    m := ClaimOne(code, q, p, r);
    CodeTwo(code, s, Sweep(r), q, Claim(r), m);
    evs := [Sweep(r), Claim(r)];
  }

  lemma SweepOne(code: Code, s: State, p: nat, r: nat) returns (m: State)
    requires SameRun(s, p, s) && IsChild(s.rows, r, p) && s.rows[r].status == Pending
    ensures Step(code.Accepts(), s, Sweep(r), m) && AsCoded(code, s, Sweep(r))
    ensures SameRun(m, p, m) && m.parents == s.parents && m.rows == s.rows && r in m.queue && HasStatus(m, r, Pending)
  {
    m := s.(queue := s.queue + multiset{r});
    assert TrafficStep(s, Sweep(r), m);
  }

  lemma FinishOwed(code: Code, s: State, p: nat) returns (evs: seq<Event>, s': State)
    requires Sorts(code) && Safe(s) && Live(s, p) && s.parents[p].def.value.steps != [] && p in s.owed
    ensures CodeRun(code, s, evs, s') && p in s'.parents && Terminal(s'.parents[p].status)
  {
    assert Healthy(s, p);
    hide Sorts, Healthy, CodeRun;
    evs, s' := FinishFrom(code, s, p);
  }

  lemma FinishActive(code: Code, s: State, p: nat) returns (evs: seq<Event>, s': State)
    requires Sorts(code) && Safe(s) && Live(s, p) && s.parents[p].def.value.steps != [] && HasActiveChild(s, p)
    ensures CodeRun(code, s, evs, s') && p in s'.parents && Terminal(s'.parents[p].status)
  {
    hide Sorts, CodeRun, Run, Safe, Step;
    var r: nat :| IsChild(s.rows, r, p) && !Terminal(s.rows[r].status);
    PendingRun(s, p);
    var front, m := ActiveReachesOwed(code, s, p, r);
    assert Live(m, p);
    hide HasActiveChild, Live;
    CodeSafe(code, s, front, m);
    var rest;
    rest, s' := FinishOwed(code, m, p);
    CodeAppend(code, s, front, m, rest, s');
    evs := front + rest;
  }

  lemma CodeSafe(code: Code, s: State, evs: seq<Event>, s': State)
    requires Safe(s) && CodeRun(code, s, evs, s')
    ensures Safe(s')
  {
    hide Safe, Run, CodeRun;
    CodeIsFaithful(code, s, evs, s');
    FaithfulIsRun(code.world, s, evs, s');
    RunSafe(code.Accepts(), s, evs, s');
  }

  lemma FinishStirring(code: Code, s: State, p: nat) returns (evs: seq<Event>, s': State)
    requires Sorts(code) && ReadsSettings(code.world) && Safe(s) && Transparent(code.world, s.rows)
    requires Live(s, p) && s.parents[p].def.value.steps != [] && p in s.locks && Stirs(code, s, p)
    ensures CodeRun(code, s, evs, s') && p in s'.parents && Terminal(s'.parents[p].status)
  {
    hide Sorts, ReadsSettings, Transparent, CodeRun, Safe, HasActiveChild, Stirs, Step, AsCoded;
    var e, m := StirringCommit(code, s, p);
    CodeOne(code, s, e, m);
    if Terminal(m.parents[p].status) {
      evs, s' := [e], m;
    } else {
      StepSafe(code.Accepts(), s, e, m);
      var rest;
      rest, s' := FinishActive(code, m, p);
      CodeAppend(code, s, [e], m, rest, s');
      evs := [e] + rest;
    }
  }

  /** Some continuation by events of the code brings the run to a verdict. */
  ghost predicate Finishable(code: Code, s: State, p: nat) {
    exists more, s' :: CodeRun(code, s, more, s') && p in s'.parents && Terminal(s'.parents[p].status)
  }

  /**
   * Completion after crashes: from any state reached in any way, with advances lost and rolled
   * back, a live non-empty run that does not mislead the sort can still be brought to a verdict if and
   * only if an advance is owed, a child is active, or the advance in flight stirs.
   */
  lemma FinishableIff(code: Code, evs: seq<Event>, s: State, p: nat)
    requires Sorts(code) && ReadsSettings(code.world) && FaithfulRun(code.world, Init(), evs, s)
    requires Live(s, p) && s.parents[p].def.value.steps != []
    ensures Finishable(code, s, p) <==> Movable(code, s, p)
  {
    ReachedSound(code.world, evs, s);
    hide Sorts, ReadsSettings, Transparent, FaithfulRun, CodeRun, Safe, Stirs, HasActiveChild;
    if Movable(code, s, p) {
      var more, s';
      if p in s.owed {
        more, s' := FinishOwed(code, s, p);
      } else if HasActiveChild(s, p) {
        more, s' := FinishActive(code, s, p);
      } else {
        more, s' := FinishStirring(code, s, p);
      }
    } else {
      assert Idle(code, s, p) || Trapped(s, p);
      forall more, s' | CodeRun(code, s, more, s') ensures !(p in s'.parents && Terminal(s'.parents[p].status)) {
        IdleForGood(code, s, more, s', p);
      }
    }
  }

  lemma ReachedSound(w: World, evs: seq<Event>, s: State)
    requires ReadsSettings(w) && FaithfulRun(w, Init(), evs, s)
    ensures Safe(s) && Transparent(w, s.rows)
  {
    InitUpToDate(0);
    hide ReadsSettings, FaithfulRun, Safe, Run, Transparent, UpToDate;
    ReuseTransparency(w, evs, s);
    FaithfulIsRun(w, Init(), evs, s);
    RunSafe(w.accepts, Init(), evs, s);
  }

  /**
   * A crash can strand a run: a process that dies after its commit and before its advance loses the
   * only advance that was owed, and from then on, short of an advance that nothing owes, the run
   * keeps its record and never gets a child.
   */
  lemma LostAdvanceStalls(accepts: Registry, p: nat, def: Definition, params: Fields)
    ensures exists s ::
      && Run(accepts, Init(), [Submit(p, Some(def), params), LoseAdvance(p)], s)
      && Trapped(s, p) && s.bells == multiset{} && s.queue == multiset{}
      && forall more, s' ::
           && Run(accepts, s, more, s')
           && (forall i :: 0 <= i < |more| ==> more[i] != Kick(p)) ==>
           && p in s'.parents && s'.parents[p] == Parent(Some(def), params, Pending)
           && forall r: nat :: !IsChild(s'.rows, r, p)
  {
    var s := Stranded(accepts, p, def, params);
    InitUpToDate(p);
    hide Run, Safe, UpToDate;
    RunSafe(accepts, Init(), [Submit(p, Some(def), params), LoseAdvance(p)], s);
    forall more, s' | Run(accepts, s, more, s') && (forall i :: 0 <= i < |more| ==> more[i] != Kick(p))
      ensures p in s'.parents && s'.parents[p] == Parent(Some(def), params, Pending)
      ensures forall r: nat :: !IsChild(s'.rows, r, p)
    {
      TrappedForGood(accepts, s, more, s', p);
    }
  }

  lemma Stranded(accepts: Registry, p: nat, def: Definition, params: Fields) returns (s: State)
    ensures Run(accepts, Init(), [Submit(p, Some(def), params), LoseAdvance(p)], s)
    ensures Trapped(s, p) && s.bells == multiset{} && s.queue == multiset{} && s.rows == map[]
    ensures p in s.parents && s.parents[p] == Parent(Some(def), params, Pending)
  {
    var m := Init().(parents := map[p := Parent(Some(def), params, Pending)], owed := multiset{p});
    s := m.(owed := multiset{});
    assert Init().parents[p := Parent(Some(def), params, Pending)] == m.parents;
    assert SubmitStep(Init(), p, Some(def), params, m);
    assert LoseAdvanceStep(m, p, s);
    hide Run;
    RunTwo(accepts, Init(), Submit(p, Some(def), params), m, LoseAdvance(p), s);
  }
}

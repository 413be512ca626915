/**
 * Accounting of the queue workers: permits, deliveries, acknowledgements, retry counters and the
 * dead-letter queue. All replicas share the counters and the queue; every await of a handler is a
 * point where any other handler of any replica may go on.
 */
module Worker {
  import opened Prelude

  type Job = string

  datatype Limits = Limits(concurrency: nat, maxRetries: nat)

  /** What a handler still has to do after its acknowledgement. */
  datatype Verdict = Clean | Retry(job: Job) | Dead | Lost

  /**
   * Where a delivery is. `Counted` has been counted one time too many and is not dead-lettered yet,
   * `Buried` is dead-lettered and has not cleared the counter yet, and `Stuck` means that its
   * acknowledgement raised, so neither its permit nor its retry came back. A verdict of `Lost` means
   * that another write raised, and that nobody has decided what becomes of the failure.
   */
  datatype Place =
    | Fetched(names: Option<Job>)
    | Running(names: Option<Job>)
    | Counted(job: Job)
    | Buried(job: Job)
    | Closing(verdict: Verdict)
    | Acked
    | Stuck(verdict: Verdict)

  /** What happens to a counter: a failure counted up to `attempt`, or a reset. */
  datatype Mark = Failed(attempt: nat) | Succeeded | Cleared

  /** Marks in the order in which the counters saw them. */
  type Log = seq<(Job, Mark)>

  /** What the handlers have written to Redis so far, and what they failed to write. */
  datatype Books = Books(
    delayed: multiset<Job>,             // re-enqueue waiting for its back-off
    resent: multiset<Job>,
    dlq: multiset<Option<Job>>,
    counters: map<Job, nat>,
    log: Log,
    lostRetries: multiset<Job>,         // counted failures due a retry that a raised write dropped
    lostLetters: multiset<Job>)         // counted failures due a dead letter that a raised write dropped

  datatype State = State(
    free: map<nat, nat>,                // permits left, by replica
    owner: map<nat, nat>,               // the replica a message was delivered to
    place: map<nat, Place>,
    books: Books)

  datatype Event =
    | Join(w: nat)
    | Fetch(d: nat, w: nat, names: Option<Job>)
    | Start(d: nat)
    | Poison(d: nat)
    | Succeed(d: nat)
    | Fail(d: nat)
    | Bury(d: nat)
    | Clear(d: nat)
    | Ack(d: nat)
    | AckRaises(d: nat)
    | CountRaises(d: nat)               // or the dead letter of a message without a job
    | ExpireRaises(d: nat)
    | BuryRaises(d: nat)
    | ClearRaises(d: nat)
    | Resend(job: Job)
    | ResendRaises(job: Job)
    | Expire(job: Job)

  ghost function Init(): State {
    State(map[], map[], map[], Books(multiset{}, multiset{}, multiset{}, map[], [], multiset{}, multiset{}))
  }

  /** The handler runs a message that names a job. */
  predicate RunsJob(s: State, d: nat) {
    d in s.place && s.place[d].Running? && s.place[d].names.Some?
  }

  predicate Enabled(s: State, e: Event) {
    match e
    case Join(w) => w !in s.free
    case Fetch(d, w, _) => d !in s.place && w in s.free
    case Start(d) =>
      && d in s.place && s.place[d].Fetched?
      && d in s.owner && s.owner[d] in s.free && s.free[s.owner[d]] > 0
    case Poison(d) => d in s.place && s.place[d] == Running(None)
    case Succeed(d) => RunsJob(s, d)
    case Fail(d) => RunsJob(s, d)
    case Bury(d) => d in s.place && s.place[d].Counted?
    case Clear(d) => d in s.place && s.place[d].Buried?
    case Ack(d) => d in s.place && s.place[d].Closing? && d in s.owner && s.owner[d] in s.free
    case AckRaises(d) => d in s.place && s.place[d].Closing?
    case CountRaises(d) => d in s.place && s.place[d].Running?
    case ExpireRaises(d) => RunsJob(s, d)
    case BuryRaises(d) => d in s.place && s.place[d].Counted?
    case ClearRaises(d) => d in s.place && s.place[d].Buried?
    case Resend(j) => j in s.books.delayed
    case ResendRaises(j) => j in s.books.delayed
    case Expire(j) => j in s.books.counters
  }

  ghost function Count(counters: map<Job, nat>, j: Job): nat {
    if j in counters then counters[j] else 0
  }

  /** The failure counter is raised; one failure too many will be dead-lettered. */
  ghost function CountFailure(b: Books, j: Job): Books {
    var attempt := Count(b.counters, j) + 1;
    b.(counters := b.counters[j := attempt], log := b.log + [(j, Failed(attempt))])
  }

  ghost function Reset(b: Books, j: Job, mark: Mark): Books {
    b.(counters := b.counters - {j}, log := b.log + [(j, mark)])
  }

  ghost function AfterFailure(lim: Limits, b: Books, j: Job): Place {
    if Count(b.counters, j) + 1 <= lim.maxRetries then Closing(Retry(j)) else Counted(j)
  }

  /** After the acknowledgement and the release of the permit, a retry starts its back-off. */
  ghost function Schedule(b: Books, v: Verdict): Books {
    if v.Retry? then b.(delayed := b.delayed + multiset{v.job}) else b
  }

  /** The failure that a handler has just counted goes to neither stream. */
  ghost function Lose(lim: Limits, b: Books, j: Job, attempt: nat): Books {
    if attempt <= lim.maxRetries then b.(lostRetries := b.lostRetries + multiset{j})
    else b.(lostLetters := b.lostLetters + multiset{j})
  }

  ghost function Effect(lim: Limits, s: State, e: Event): State
    requires Enabled(s, e)
  {
    match e
    case Join(w) => s.(free := s.free[w := lim.concurrency])
    case Fetch(d, w, names) => s.(owner := s.owner[d := w], place := s.place[d := Fetched(names)])
    case Start(d) =>
      s.(free := s.free[s.owner[d] := s.free[s.owner[d]] - 1],
         place := s.place[d := Running(s.place[d].names)])
    case Poison(d) =>
      s.(place := s.place[d := Closing(Dead)], books := s.books.(dlq := s.books.dlq + multiset{None}))
    case Succeed(d) =>
      s.(place := s.place[d := Closing(Clean)], books := Reset(s.books, s.place[d].names.value, Succeeded))
    case Fail(d) =>
      var j := s.place[d].names.value;
      s.(place := s.place[d := AfterFailure(lim, s.books, j)], books := CountFailure(s.books, j))
    case Bury(d) =>
      var j := s.place[d].job;
      s.(place := s.place[d := Buried(j)], books := s.books.(dlq := s.books.dlq + multiset{Some(j)}))
    case Clear(d) =>
      s.(place := s.place[d := Closing(Dead)], books := Reset(s.books, s.place[d].job, Cleared))
    case Ack(d) =>
      s.(free := s.free[s.owner[d] := s.free[s.owner[d]] + 1],
         place := s.place[d := Acked], books := Schedule(s.books, s.place[d].verdict))
    case AckRaises(d) => s.(place := s.place[d := Stuck(s.place[d].verdict)])
    case CountRaises(d) => s.(place := s.place[d := Closing(Lost)])
    case ExpireRaises(d) =>
      var j := s.place[d].names.value;
      s.(place := s.place[d := Closing(Lost)],
         books := Lose(lim, CountFailure(s.books, j), j, Count(s.books.counters, j) + 1))
    case BuryRaises(d) =>
      var j := s.place[d].job;
      s.(place := s.place[d := Closing(Lost)],
         books := s.books.(lostLetters := s.books.lostLetters + multiset{j}))
    case ClearRaises(d) => s.(place := s.place[d := Closing(Dead)])
    case Resend(j) =>
      s.(books := s.books.(delayed := s.books.delayed - multiset{j}, resent := s.books.resent + multiset{j}))
    case ResendRaises(j) =>
      s.(books := s.books.(delayed := s.books.delayed - multiset{j},
                           lostRetries := s.books.lostRetries + multiset{j}))
    case Expire(j) => s.(books := s.books.(counters := s.books.counters - {j}))
  }

  /** `evs` leads from `s` to `s'`. */
  ghost predicate RunFrom(lim: Limits, s: State, evs: seq<Event>, s': State)
    decreases |evs|
  {
    if evs == [] then s' == s
    else
      var n := |evs| - 1;
      exists m :: RunFrom(lim, s, evs[..n], m) && Enabled(m, evs[n]) && s' == Effect(lim, m, evs[n])
  }

  ghost predicate Run(lim: Limits, evs: seq<Event>, s: State) {
    RunFrom(lim, Init(), evs, s)
  }

  lemma RunOneMore(lim: Limits, s: State, evs: seq<Event>, m: State, e: Event)
    requires RunFrom(lim, s, evs, m) && Enabled(m, e)
    ensures RunFrom(lim, s, evs + [e], Effect(lim, m, e))
  {
    var more := evs + [e];
    assert more[..|more| - 1] == evs && more[|more| - 1] == e;
    hide Enabled, Effect;
  }

  lemma {:induction false} RunJoin(lim: Limits, s: State, evs: seq<Event>, m: State, more: seq<Event>, s': State)
    requires RunFrom(lim, s, evs, m) && RunFrom(lim, m, more, s')
    ensures RunFrom(lim, s, evs + more, s')
    decreases |more|
  {
    hide Enabled, Effect;
    if more == [] {
      assert evs + more == evs;
    } else {
      var n := |more| - 1;
      var q :| RunFrom(lim, m, more[..n], q) && Enabled(q, more[n]) && s' == Effect(lim, q, more[n]);
      RunJoin(lim, s, evs, m, more[..n], q);
      RunOneMore(lim, s, evs + more[..n], q, more[n]);
      assert evs + more == evs + more[..n] + [more[n]];
    }
  }

  lemma {:induction false} RunSplit(lim: Limits, s: State, evs: seq<Event>, s': State, i: nat) returns (m: State)
    requires RunFrom(lim, s, evs, s') && i <= |evs|
    ensures RunFrom(lim, s, evs[..i], m) && RunFrom(lim, m, evs[i..], s')
    decreases |evs|
  {
    hide Enabled, Effect;
    if i == |evs| {
      m := s';
      assert evs[..i] == evs && evs[i..] == [];
    } else {
      var n := |evs| - 1;
      var q :| RunFrom(lim, s, evs[..n], q) && Enabled(q, evs[n]) && s' == Effect(lim, q, evs[n]);
      m := RunSplit(lim, s, evs[..n], q, i);
      assert evs[..n][..i] == evs[..i];
      RunOneMore(lim, m, evs[..n][i..], q, evs[n]);
      assert evs[i..] == evs[..n][i..] + [evs[n]];
    }
  }

  /** A handler's events determine where they lead. */
  lemma {:induction false} RunUnique(lim: Limits, s: State, evs: seq<Event>, a: State, b: State)
    requires RunFrom(lim, s, evs, a) && RunFrom(lim, s, evs, b)
    ensures a == b
    decreases |evs|
  {
    if evs != [] {
      hide Enabled, Effect;
      var n := |evs| - 1;
      var m :| RunFrom(lim, s, evs[..n], m) && Enabled(m, evs[n]) && a == Effect(lim, m, evs[n]);
      var q :| RunFrom(lim, s, evs[..n], q) && Enabled(q, evs[n]) && b == Effect(lim, q, evs[n]);
      RunUnique(lim, s, evs[..n], m, q);
    }
  }

  /** The delivery an event moves, if it moves one. */
  function Moves(e: Event): Option<nat> {
    match e
    case Join(_) => None
    case Resend(_) => None
    case ResendRaises(_) => None
    case Expire(_) => None
    case Fetch(d, _, _) => Some(d)
    case Start(d) => Some(d)
    case Poison(d) => Some(d)
    case Succeed(d) => Some(d)
    case Fail(d) => Some(d)
    case Bury(d) => Some(d)
    case Clear(d) => Some(d)
    case Ack(d) => Some(d)
    case AckRaises(d) => Some(d)
    case CountRaises(d) => Some(d)
    case ExpireRaises(d) => Some(d)
    case BuryRaises(d) => Some(d)
    case ClearRaises(d) => Some(d)
  }

  /** Every other delivery stays where it is. */
  lemma MovesOnly(lim: Limits, s: State, e: Event)
    requires Enabled(s, e)
    ensures Moves(e).None? ==> Effect(lim, s, e).place == s.place
    ensures Moves(e).Some? ==>
      && Moves(e).value in Effect(lim, s, e).place
      && Effect(lim, s, e).place == s.place[Moves(e).value := Effect(lim, s, e).place[Moves(e).value]]
  {
    hide CountFailure, Reset, Schedule, Lose;
  }

  // ---- Permits ----

  ghost predicate Holding(p: Place) {
    p.Running? || p.Counted? || p.Buried? || p.Closing?
  }

  /** A replica's handlers between taking a permit and giving it back. */
  ghost function Active(s: State, w: nat): set<nat> {
    set d | d in s.place && d in s.owner && s.owner[d] == w && Holding(s.place[d])
  }

  ghost function StuckOnes(s: State, w: nat): set<nat> {
    set d | d in s.place && d in s.owner && s.owner[d] == w && s.place[d].Stuck?
  }

  ghost predicate Owned(s: State) {
    s.place.Keys == s.owner.Keys && forall d :: d in s.owner ==> s.owner[d] in s.free
  }

  ghost predicate Balanced(lim: Limits, s: State, w: nat) {
    w in s.free ==> s.free[w] + |Active(s, w)| + |StuckOnes(s, w)| == lim.concurrency
  }

  lemma SetsMove(s: State, s': State, d: nat, w: nat)
    requires forall x :: x != d ==> (x in s.place <==> x in s'.place) && (x in s.owner <==> x in s'.owner)
    requires forall x :: x != d && x in s.place ==> s'.place[x] == s.place[x]
    requires forall x :: x != d && x in s.owner ==> s'.owner[x] == s.owner[x]
    ensures |Active(s', w)| - (if d in Active(s', w) then 1 else 0)
      == |Active(s, w)| - (if d in Active(s, w) then 1 else 0)
    ensures |StuckOnes(s', w)| - (if d in StuckOnes(s', w) then 1 else 0)
         == |StuckOnes(s, w)| - (if d in StuckOnes(s, w) then 1 else 0)
  {
    SizesDiffer(Active(s', w), Active(s, w), d);
    SizesDiffer(StuckOnes(s', w), StuckOnes(s, w), d);
  }

  lemma NobodyYet(s: State, w: nat)
    requires Owned(s) && w !in s.free
    ensures Active(s, w) == {} && StuckOnes(s, w) == {}
  {
  }

  lemma StepOwned(lim: Limits, s: State, e: Event)
    requires Enabled(s, e) && Owned(s)
    ensures Owned(Effect(lim, s, e))
  {
    hide CountFailure, Reset, Schedule, AfterFailure, Lose;
  }

  /** The permit a handler gives or takes is the one its place says it holds. */
  lemma PermitChange(lim: Limits, s: State, e: Event, w: nat)
    requires Enabled(s, e) && Owned(s) && Moves(e).Some? && w in s.free
    ensures var d, s' := Moves(e).value, Effect(lim, s, e);
      && w in s'.free
      && s'.free[w] + (if d in Active(s', w) then 1 else 0) + (if d in StuckOnes(s', w) then 1 else 0)
         == s.free[w] + (if d in Active(s, w) then 1 else 0) + (if d in StuckOnes(s, w) then 1 else 0)
  {
    hide CountFailure, Reset, Schedule, Lose;
  }

  lemma OwnersMove(lim: Limits, s: State, e: Event)
    requires Enabled(s, e) && Moves(e).Some?
    ensures var d, s' := Moves(e).value, Effect(lim, s, e);
      && s'.free.Keys == s.free.Keys
      && forall x :: x != d ==> (x in s.owner <==> x in s'.owner) && (x in s.owner ==> s'.owner[x] == s.owner[x])
  {
    hide CountFailure, Reset, Schedule, Lose;
  }

  lemma StepPermits(lim: Limits, s: State, e: Event, w: nat)
    requires Enabled(s, e) && Owned(s) && Balanced(lim, s, w)
    ensures Balanced(lim, Effect(lim, s, e), w)
  {
    var s' := Effect(lim, s, e);
    if Moves(e).Some? {
      MovesOnly(lim, s, e);
      OwnersMove(lim, s, e);
      if w in s.free { PermitChange(lim, s, e, w); }
      hide Effect, Enabled, Owned, Active, StuckOnes;
      SetsMove(s, s', Moves(e).value, w);
    } else {
      assert Active(s', w) == Active(s, w) && StuckOnes(s', w) == StuckOnes(s, w);
      if w !in s.free { NobodyYet(s, w); }
    }
  }

  /**
   * Permits: for every replica in every state, free permits and active handlers add up to the
   * configured concurrency if and only if none of its acknowledgements has ever raised.
   */
  lemma {:induction false} PermitsBalance(lim: Limits, evs: seq<Event>, s: State, w: nat)
    requires Run(lim, evs, s)
    ensures Owned(s) && Balanced(lim, s, w)
    ensures w in s.free ==>
      (s.free[w] + |Active(s, w)| == lim.concurrency <==> StuckOnes(s, w) == {})
    decreases |evs|
  {
    if evs != [] {
      var n := |evs| - 1;
      var m :| RunFrom(lim, Init(), evs[..n], m) && Enabled(m, evs[n]) && s == Effect(lim, m, evs[n]);
      PermitsBalance(lim, evs[..n], m, w);
      hide RunFrom, Effect, Enabled;
      StepOwned(lim, m, evs[n]);
      StepPermits(lim, m, evs[n], w);
    }
  }

  // ---- Acknowledgements ----

  ghost function Acks(evs: seq<Event>, d: nat): nat {
    if evs == [] then 0 else Acks(evs[..|evs| - 1], d) + if evs[|evs| - 1] == Ack(d) then 1 else 0
  }

  lemma StepAcked(lim: Limits, s: State, e: Event, d: nat)
    requires Enabled(s, e)
    ensures var s' := Effect(lim, s, e);
            && (d in s'.place && s'.place[d].Acked? <==> (d in s.place && s.place[d].Acked?) || e == Ack(d))
            && (e == Ack(d) ==> !(d in s.place && s.place[d].Acked?))
  {
    hide CountFailure, Reset, Schedule, Lose;
  }

  /** Each delivery is acknowledged at most once, and exactly once when it has left its worker. */
  lemma {:induction false} AckedOnce(lim: Limits, evs: seq<Event>, s: State, d: nat)
    requires Run(lim, evs, s)
    ensures Acks(evs, d) == if d in s.place && s.place[d].Acked? then 1 else 0
    decreases |evs|
  {
    if evs != [] {
      var n := |evs| - 1;
      var m :| RunFrom(lim, Init(), evs[..n], m) && Enabled(m, evs[n]) && s == Effect(lim, m, evs[n]);
      AckedOnce(lim, evs[..n], m, d);
      hide RunFrom, Effect;
      StepAcked(lim, m, evs[n], d);
    }
  }

  // ---- Where each failure goes ----

  ghost function Failures(log: Log, j: Job): nat {
    if log == [] then 0
    else Failures(log[..|log| - 1], j) + if log[|log| - 1].0 == j && log[|log| - 1].1.Failed? then 1 else 0
  }

  /** Deliveries in a given place. */
  ghost function At(place: map<nat, Place>, p: Place): set<nat> {
    set d | d in place && place[d] == p
  }

  lemma MoveAt(place: map<nat, Place>, d: nat, to: Place, p: Place)
    ensures |At(place[d := to], p)|
      == |At(place, p)| - (if d in place && place[d] == p then 1 else 0) + (if to == p then 1 else 0)
  {
    SizesDiffer(At(place[d := to], p), At(place, p), d);
  }

  /** An event takes the delivery it moves from one place to another. */
  lemma MovedAt(lim: Limits, s: State, e: Event, p: Place)
    requires Enabled(s, e)
    ensures var s' := Effect(lim, s, e);
      |At(s'.place, p)| == match Moves(e)
        case None => |At(s.place, p)|
        case Some(d) => |At(s.place, p)| - (if d in s.place && s.place[d] == p then 1 else 0)
                        + (if d in s'.place && s'.place[d] == p then 1 else 0)
  {
    MovesOnly(lim, s, e);
    hide Effect, At, Enabled;
    if Moves(e).Some? { MoveAt(s.place, Moves(e).value, Effect(lim, s, e).place[Moves(e).value], p); }
  }

  /** The event counts a failure of the job. */
  ghost predicate Fails(s: State, e: Event, j: Job)
    requires Enabled(s, e)
  {
    (e.Fail? || e.ExpireRaises?) && s.place[e.d].names.value == j
  }

  /** Failures of a job that are, or still will be, in one of the two streams. */
  ghost function InStreams(s: State, j: Job): nat {
    |At(s.place, Closing(Retry(j)))| + s.books.delayed[j] + s.books.resent[j]
    + |At(s.place, Counted(j))| + s.books.dlq[Some(j)]
  }

  /** What has become of the failures of a job, the lost ones included. */
  ghost predicate Conserved(s: State, j: Job) {
    Failures(s.books.log, j)
      == InStreams(s, j) + |At(s.place, Stuck(Retry(j)))| + s.books.lostRetries[j] + s.books.lostLetters[j]
  }

  lemma OneMoreMark(log: Log, j: Job, x: (Job, Mark))
    ensures Failures(log + [x], j) == Failures(log, j) + if x.0 == j && x.1.Failed? then 1 else 0
  {
    assert (log + [x])[..|log|] == log;
  }

  /** The mark an event leaves in the log, if it leaves one. */
  ghost function MarkOf(s: State, e: Event): Option<(Job, Mark)>
    requires Enabled(s, e)
  {
    match e
    case Fail(d) => Some((s.place[d].names.value, Failed(Count(s.books.counters, s.place[d].names.value) + 1)))
    case ExpireRaises(d) => Some((s.place[d].names.value, Failed(Count(s.books.counters, s.place[d].names.value) + 1)))
    case Succeed(d) => Some((s.place[d].names.value, Succeeded))
    case Clear(d) => Some((s.place[d].job, Cleared))
    case _ => None
  }

  lemma LogGrows(lim: Limits, s: State, e: Event)
    requires Enabled(s, e)
    ensures Effect(lim, s, e).books.log
      == s.books.log + match MarkOf(s, e) case Some(x) => [x] case None => []
  {
    assert s.books.log + [] == s.books.log;
  }

  lemma StepFailures(lim: Limits, s: State, e: Event, j: Job)
    requires Enabled(s, e)
    ensures Failures(Effect(lim, s, e).books.log, j) == Failures(s.books.log, j) + if Fails(s, e, j) then 1 else 0
  {
    LogGrows(lim, s, e);
    hide Effect, Failures;
    if MarkOf(s, e).Some? {
      OneMoreMark(s.books.log, j, MarkOf(s, e).value);
    } else {
      assert s.books.log + [] == s.books.log;
    }
  }

  /** Retries of a job on their way, made, or lost. */
  ghost function Retries(b: Books, j: Job): int {
    b.delayed[j] + b.resent[j] + b.lostRetries[j]
  }

  /** Dead letters of a job, written or lost. */
  ghost function Letters(b: Books, j: Job): int {
    b.dlq[Some(j)] + b.lostLetters[j]
  }

  lemma StepRetries(lim: Limits, s: State, e: Event, j: Job)
    requires Enabled(s, e)
    ensures Retries(Effect(lim, s, e).books, j) == Retries(s.books, j)
      + match e
        case ExpireRaises(d) =>
          if s.place[d].names.value == j && Count(s.books.counters, j) + 1 <= lim.maxRetries then 1 else 0
        case Ack(d) => if s.place[d].verdict == Retry(j) then 1 else 0
        case _ => 0
  {
  }

  lemma StepLetters(lim: Limits, s: State, e: Event, j: Job)
    requires Enabled(s, e)
    ensures Letters(Effect(lim, s, e).books, j) == Letters(s.books, j)
      + match e
        case Bury(d) => if s.place[d].job == j then 1 else 0
        case BuryRaises(d) => if s.place[d].job == j then 1 else 0
        case ExpireRaises(d) =>
          if s.place[d].names.value == j && Count(s.books.counters, j) + 1 > lim.maxRetries then 1 else 0
        case _ => 0
  {
  }

  /** The places in which a handler carries a failure of the job. */
  ghost predicate Carries(p: Place, j: Job) {
    p == Closing(Retry(j)) || p == Stuck(Retry(j)) || p == Counted(j)
  }

  ghost function InHandlers(s: State, j: Job): nat {
    |At(s.place, Closing(Retry(j)))| + |At(s.place, Stuck(Retry(j)))| + |At(s.place, Counted(j))|
  }

  lemma StepCarried(lim: Limits, s: State, e: Event, j: Job)
    requires Enabled(s, e)
    ensures var s' := Effect(lim, s, e);
      InHandlers(s', j) == match Moves(e)
        case None => InHandlers(s, j)
        case Some(d) => InHandlers(s, j) - (if d in s.place && Carries(s.place[d], j) then 1 else 0)
                        + (if d in s'.place && Carries(s'.place[d], j) then 1 else 0)
  {
    MovedAt(lim, s, e, Closing(Retry(j)));
    MovedAt(lim, s, e, Stuck(Retry(j)));
    MovedAt(lim, s, e, Counted(j));
    hide At, Effect, Enabled;
  }

  /** What the event changes about the failures that the handler it moves carries. */
  lemma CarriedChange(lim: Limits, s: State, e: Event, j: Job)
    requires Enabled(s, e) && Moves(e).Some?
    ensures var d, s' := Moves(e).value, Effect(lim, s, e);
      && d in s'.place
      && (if Carries(s'.place[d], j) then 1 else 0) - (if d in s.place && Carries(s.place[d], j) then 1 else 0)
         == match e
            case Fail(_) => if s.place[d].names.value == j then 1 else 0
            case Bury(_) => if s.place[d].job == j then -1 else 0
            case BuryRaises(_) => if s.place[d].job == j then -1 else 0
            case Ack(_) => if s.place[d].verdict == Retry(j) then -1 else 0
            case _ => 0
  {
    hide CountFailure, Reset, Schedule, Lose;
  }

  lemma StepConserved(lim: Limits, s: State, e: Event, j: Job)
    requires Conserved(s, j) && Enabled(s, e)
    ensures Conserved(Effect(lim, s, e), j)
  {
    StepFailures(lim, s, e, j);
    StepRetries(lim, s, e, j);
    StepLetters(lim, s, e, j);
    StepCarried(lim, s, e, j);
    if Moves(e).Some? { CarriedChange(lim, s, e, j); }
    hide At, Failures, Effect;
  }

  lemma NoneAt(p: Place)
    ensures At(map[], p) == {}
  {
  }

  /**
   * Conservation: each counted failure of a job is exactly one decided, waiting or made re-enqueue,
   * or exactly one written or decided dead letter, if and only if no handler that owed the job a
   * re-enqueue was cut off by a raising acknowledgement and no other write of the two raised; the
   * failures lost in these ways are all that is missing.
   */
  lemma {:induction false} FailuresConserved(lim: Limits, evs: seq<Event>, s: State, j: Job)
    requires Run(lim, evs, s)
    ensures Conserved(s, j)
    ensures Failures(s.books.log, j) == InStreams(s, j)
       <==> At(s.place, Stuck(Retry(j))) == {} && s.books.lostRetries[j] == 0 && s.books.lostLetters[j] == 0
    decreases |evs|
  {
    if evs == [] {
      NoneAt(Closing(Retry(j)));
      NoneAt(Stuck(Retry(j)));
      NoneAt(Counted(j));
    } else {
      var n := |evs| - 1;
      var m :| RunFrom(lim, Init(), evs[..n], m) && Enabled(m, evs[n]) && s == Effect(lim, m, evs[n]);
      FailuresConserved(lim, evs[..n], m, j);
      hide RunFrom, Effect, At, Failures, InStreams;
      StepConserved(lim, m, evs[n], j);
    }
  }

  /** A handler whose acknowledgement raised never comes back: its retry is lost for good. */
  lemma {:induction false} StuckForGood(lim: Limits, s: State, evs: seq<Event>, s': State, d: nat)
    requires RunFrom(lim, s, evs, s') && d in s.place && s.place[d].Stuck?
    ensures d in s'.place && s'.place[d] == s.place[d]
    decreases |evs|
  {
    if evs != [] {
      var n := |evs| - 1;
      var m :| RunFrom(lim, s, evs[..n], m) && Enabled(m, evs[n]) && s' == Effect(lim, m, evs[n]);
      StuckForGood(lim, s, evs[..n], m, d);
      MovesOnly(lim, m, evs[n]);
      hide RunFrom, Effect;
    }
  }

  // ---- What is dead-lettered ----

  /** Failures of a job that were counted beyond the limit. */
  ghost function TooMany(lim: Limits, log: Log, j: Job): nat {
    if log == [] then 0
    else
      var last := log[|log| - 1];
      TooMany(lim, log[..|log| - 1], j)
      + if last.0 == j && last.1.Failed? && last.1.attempt > lim.maxRetries then 1 else 0
  }

  ghost predicate DeadCounted(lim: Limits, s: State, j: Job) {
    s.books.dlq[Some(j)] + |At(s.place, Counted(j))| + s.books.lostLetters[j] == TooMany(lim, s.books.log, j)
  }

  lemma OneMoreDead(lim: Limits, log: Log, j: Job, x: (Job, Mark))
    ensures TooMany(lim, log + [x], j)
      == TooMany(lim, log, j) + if x.0 == j && x.1.Failed? && x.1.attempt > lim.maxRetries then 1 else 0
  {
    assert (log + [x])[..|log|] == log;
  }

  lemma StepTooMany(lim: Limits, s: State, e: Event, j: Job)
    requires Enabled(s, e)
    ensures TooMany(lim, Effect(lim, s, e).books.log, j)
      == TooMany(lim, s.books.log, j)
         + if Fails(s, e, j) && Count(s.books.counters, j) + 1 > lim.maxRetries then 1 else 0
  {
    LogGrows(lim, s, e);
    hide Effect, TooMany;
    if MarkOf(s, e).Some? {
      OneMoreDead(lim, s.books.log, j, MarkOf(s, e).value);
    } else {
      assert s.books.log + [] == s.books.log;
    }
  }

  lemma CountedChange(lim: Limits, s: State, e: Event, j: Job)
    requires Enabled(s, e) && Moves(e).Some?
    ensures var d, s' := Moves(e).value, Effect(lim, s, e);
      && d in s'.place
      && (if s'.place[d] == Counted(j) then 1 else 0) - (if d in s.place && s.place[d] == Counted(j) then 1 else 0)
         == match e
            case Fail(_) =>
              if s.place[d].names.value == j && Count(s.books.counters, j) + 1 > lim.maxRetries then 1 else 0
            case Bury(_) => if s.place[d].job == j then -1 else 0
            case BuryRaises(_) => if s.place[d].job == j then -1 else 0
            case _ => 0
  {
    hide CountFailure, Reset, Schedule, Lose;
  }

  lemma StepDead(lim: Limits, s: State, e: Event, j: Job)
    requires DeadCounted(lim, s, j) && Enabled(s, e)
    ensures DeadCounted(lim, Effect(lim, s, e), j)
  {
    MovedAt(lim, s, e, Counted(j));
    StepTooMany(lim, s, e, j);
    StepLetters(lim, s, e, j);
    if Moves(e).Some? { CountedChange(lim, s, e, j); }
    hide At, TooMany, Effect;
  }

  /**
   * Under every interleaving the failures whose own count of the shared counter came out above
   * MAX_RETRIES are the dead letters, written or about to be, and those lost to a raised write; so
   * they are the dead letters alone if and only if no such write raised.
   */
  lemma {:induction false} DeadLettersExact(lim: Limits, evs: seq<Event>, s: State, j: Job)
    requires Run(lim, evs, s)
    ensures DeadCounted(lim, s, j)
    ensures s.books.dlq[Some(j)] + |At(s.place, Counted(j))| == TooMany(lim, s.books.log, j)
       <==> s.books.lostLetters[j] == 0
    decreases |evs|
  {
    if evs == [] {
      NoneAt(Counted(j));
    } else {
      var n := |evs| - 1;
      var m :| RunFrom(lim, Init(), evs[..n], m) && Enabled(m, evs[n]) && s == Effect(lim, m, evs[n]);
      DeadLettersExact(lim, evs[..n], m, j);
      hide RunFrom, Effect, At, TooMany;
      StepDead(lim, m, evs[n], j);
    }
  }
}

/**
 * When the retry counters dead-letter a job: the law the counting is meant to give, the exact
 * condition under which it does, and how overlapping deliveries of one job break it.
 */
module RetryLaw {
  import opened Prelude
  import opened Worker

  // ---- The streak law and what it takes ----

  /** Failures of a job since its last success. */
  ghost function Streak(log: Log, j: Job): nat {
    if log == [] then 0
    else
      var front, last := log[..|log| - 1], log[|log| - 1];
      if last.0 != j || last.1.Cleared? then Streak(front, j)
      else if last.1.Succeeded? then 0 else Streak(front, j) + 1
  }

  /** The mark at `i` is dead-lettered exactly if it completes a multiple of MAX_RETRIES + 1 failures. */
  ghost predicate LawfulAt(lim: Limits, log: Log, j: Job, i: nat)
    requires i < |log|
  {
    log[i].0 == j && log[i].1.Failed? ==>
      (log[i].1.attempt > lim.maxRetries <==> Streak(log[..i + 1], j) % (lim.maxRetries + 1) == 0)
  }

  ghost predicate Lawful(lim: Limits, log: Log, j: Job) {
    forall i: nat :: i < |log| ==> LawfulAt(lim, log, j, i)
  }

  predicate Burying(p: Place, j: Job) {
    p == Counted(j) || p == Buried(j)
  }

  /** Some handler is between counting the job one time too many and clearing its counter. */
  ghost predicate Open(s: State, j: Job) {
    exists d :: d in s.place && Burying(s.place[d], j)
  }

  /** Another delivery of the job is counted in just that window. */
  ghost predicate Overlaps(s: State, e: Event, j: Job) {
    e.Fail? && e.d in s.place && s.place[e.d] == Running(Some(j)) && Open(s, j)
  }

  ghost predicate Exclusive(lim: Limits, s: State, evs: seq<Event>, j: Job) {
    forall i, m :: 0 <= i < |evs| && RunFrom(lim, s, evs[..i], m) ==> !Overlaps(m, evs[i], j)
  }

  /** The counter does not expire, and no write that the counting depends on raises. */
  predicate Steady(e: Event) {
    !e.Expire? && !e.ExpireRaises? && !e.BuryRaises? && !e.ClearRaises?
  }

  ghost predicate SteadyRun(evs: seq<Event>) {
    forall i :: 0 <= i < |evs| ==> Steady(evs[i])
  }

  /** Whatever happens from here on in a steady run without overlap, the law holds of the whole log. */
  ghost predicate Reliable(lim: Limits, s: State, j: Job) {
    forall more, s' :: RunFrom(lim, s, more, s') && SteadyRun(more) && Exclusive(lim, s, more, j) ==>
      Lawful(lim, s'.books.log, j)
  }

  lemma AtLeastOnce(k: int, period: nat)
    requires k >= 1
    ensures k * period >= period
  {
  }

  lemma Distribute(a: int, b: int, period: nat)
    ensures (a - b) * period == a * period - b * period
  {
  }

  lemma RemainderUnique(n: nat, period: nat, q: nat, r: nat)
    requires r < period && n == q * period + r
    ensures n % period == r
  {
    var q', r' := n / period, n % period;
    assert n == q' * period + r';
    Distribute(q, q', period);
    Distribute(q', q, period);
    if q' < q { AtLeastOnce(q - q', period); }
    if q < q' { AtLeastOnce(q' - q, period); }
  }

  lemma NextRemainder(n: nat, period: nat)
    requires period > 0
    ensures (n + 1) % period == if n % period == period - 1 then 0 else n % period + 1
  {
    var q, r := n / period, n % period;
    Distribute(q + 1, q, period);
    if r == period - 1 {
      RemainderUnique(n + 1, period, q + 1, 0);
    } else {
      RemainderUnique(n + 1, period, q, r + 1);
    }
  }

  lemma WholePeriod(n: nat, period: nat)
    requires period > 0 && n % period == 0
    ensures (n + period) % period == 0
  {
    var q := n / period;
    Distribute(q + 1, q, period);
    RemainderUnique(n + period, period, q + 1, 0);
  }

  lemma LogOneMore(lim: Limits, log: Log, j: Job, x: (Job, Mark))
    ensures Streak(log + [x], j)
      == if x.0 != j || x.1.Cleared? then Streak(log, j) else if x.1.Succeeded? then 0 else Streak(log, j) + 1
    ensures Lawful(lim, log + [x], j) <==> Lawful(lim, log, j) && LawfulAt(lim, log + [x], j, |log|)
  {
    var more := log + [x];
    assert more[..|log|] == log && more[..|log| + 1] == more;
    forall i: nat | i < |log| ensures LawfulAt(lim, more, j, i) <==> LawfulAt(lim, log, j, i) {
      assert more[..i + 1] == log[..i + 1];
    }
    hide Streak, LawfulAt;
    if Lawful(lim, more, j) {
      forall i: nat | i < |log| ensures LawfulAt(lim, log, j, i) {
        assert LawfulAt(lim, more, j, i);
      }
      assert LawfulAt(lim, more, j, |log|);
    }
  }

  /** Outside the window the counter is the streak's remainder, inside it the streak is a multiple. */
  ghost predicate Aligned(lim: Limits, s: State, j: Job) {
    && (Open(s, j) ==> Streak(s.books.log, j) % (lim.maxRetries + 1) == 0)
    && (!Open(s, j) ==> Count(s.books.counters, j) == Streak(s.books.log, j) % (lim.maxRetries + 1))
  }

  /** A failure counted to one more than the remainder of the streak so far is dead-lettered in time. */
  lemma CountedInTime(lim: Limits, log: Log, j: Job, a: nat)
    requires Lawful(lim, log, j) && a == Streak(log, j) % (lim.maxRetries + 1) + 1
    ensures var more, p := log + [(j, Failed(a))], lim.maxRetries + 1;
      && Lawful(lim, more, j)
      && Streak(more, j) % p == if a > lim.maxRetries then 0 else a
  {
    var more := log + [(j, Failed(a))];
    LogOneMore(lim, log, j, (j, Failed(a)));
    NextRemainder(Streak(log, j), lim.maxRetries + 1);
    assert more[..|log| + 1] == more && more[|log|] == (j, Failed(a));
    hide Lawful, Streak;
    assert LawfulAt(lim, more, j, |log|);
  }

  lemma OpenByPlace(s: State, s': State, d: nat, p: Place, j: Job)
    requires !Open(s, j) && !Burying(p, j) && (s'.place == s.place || s'.place == s.place[d := p])
    ensures !Open(s', j)
  {
    forall x | x in s'.place ensures !Burying(s'.place[x], j) {
      if x in s.place { assert !Burying(s.place[x], j); }
    }
  }

  /** Counting a failure opens a window exactly if it is one too many. */
  lemma FailOpens(lim: Limits, s: State, d: nat, j: Job)
    requires Enabled(s, Fail(d)) && s.place[d] == Running(Some(j)) && !Open(s, j)
    ensures Open(Effect(lim, s, Fail(d)), j) <==> Count(s.books.counters, j) + 1 > lim.maxRetries
  {
    var s' := Effect(lim, s, Fail(d));
    hide Count;
    if Count(s.books.counters, j) + 1 > lim.maxRetries {
      assert Burying(s'.place[d], j);
    } else {
      OpenByPlace(s, s', d, s'.place[d], j);
    }
  }

  lemma FailKeepsLaw(lim: Limits, s: State, d: nat, j: Job)
    requires Enabled(s, Fail(d)) && s.place[d] == Running(Some(j)) && !Open(s, j)
    requires Aligned(lim, s, j) && Lawful(lim, s.books.log, j)
    ensures Aligned(lim, Effect(lim, s, Fail(d)), j) && Lawful(lim, Effect(lim, s, Fail(d)).books.log, j)
  {
    hide Lawful, Streak, Open;
    CountedInTime(lim, s.books.log, j, Count(s.books.counters, j) + 1);
    FailOpens(lim, s, d, j);
  }

  /** A log mark of another job, or none at all, and no window of the job opened or closed. */
  lemma OthersKeepLaw(lim: Limits, s: State, s': State, j: Job)
    requires Aligned(lim, s, j) && Lawful(lim, s.books.log, j)
    requires Open(s, j) <==> Open(s', j)
    requires Count(s'.books.counters, j) == Count(s.books.counters, j)
    requires s'.books.log == s.books.log
      || exists x: (Job, Mark) :: x.0 != j && s'.books.log == s.books.log + [x]
    ensures Aligned(lim, s', j) && Lawful(lim, s'.books.log, j)
  {
    hide Open;
    if s'.books.log != s.books.log {
      var x: (Job, Mark) :| x.0 != j && s'.books.log == s.books.log + [x];
      LogOneMore(lim, s.books.log, j, x);
    }
    hide Lawful, Streak;
  }

  lemma ResetKeepsLaw(lim: Limits, s: State, s': State, j: Job, mark: Mark)
    requires Aligned(lim, s, j) && Lawful(lim, s.books.log, j)
    requires mark.Succeeded? || (mark.Cleared? && Open(s, j))
    requires s'.books.log == s.books.log + [(j, mark)] && Count(s'.books.counters, j) == 0
    ensures Aligned(lim, s', j) && Lawful(lim, s'.books.log, j)
  {
    hide Open;
    LogOneMore(lim, s.books.log, j, (j, mark));
    hide Lawful, Streak;
  }

  lemma WindowsMove(lim: Limits, s: State, e: Event, j: Job)
    requires Enabled(s, e) && Steady(e)
    ensures Open(Effect(lim, s, e), j) ==> Open(s, j) || (e.Fail? && s.place[e.d] == Running(Some(j)))
    ensures Open(s, j) ==> Open(Effect(lim, s, e), j) || (e.Clear? && s.place[e.d] == Buried(j))
  {
    var s' := Effect(lim, s, e);
    MovesOnly(lim, s, e);
    hide CountFailure, Reset, Schedule, Lose;
    if d :| d in s.place && Burying(s.place[d], j) {
      if Moves(e) != Some(d) { assert Burying(s'.place[d], j); }
      if e.Bury? && e.d == d { assert Burying(s'.place[d], j); }
    }
    if d :| d in s'.place && Burying(s'.place[d], j) {
      if Moves(e) != Some(d) { assert Burying(s.place[d], j); }
      if e.Bury? && e.d == d { assert Burying(s.place[d], j); }
    }
  }

  lemma StepLaw(lim: Limits, s: State, e: Event, j: Job)
    requires Enabled(s, e) && Steady(e) && !Overlaps(s, e, j)
    requires Aligned(lim, s, j) && Lawful(lim, s.books.log, j)
    ensures Aligned(lim, Effect(lim, s, e), j) && Lawful(lim, Effect(lim, s, e).books.log, j)
  {
    var s' := Effect(lim, s, e);
    WindowsMove(lim, s, e, j);
    hide Aligned, Lawful, Open;
    match e
    case Fail(d) =>
      var k := s.place[d].names.value;
      if k == j {
        FailKeepsLaw(lim, s, d, j);
      } else {
        assert (k, Failed(Count(s.books.counters, k) + 1)).0 != j;
        OthersKeepLaw(lim, s, s', j);
      }
    case Succeed(d) =>
      var k := s.place[d].names.value;
      if k == j {
        ResetKeepsLaw(lim, s, s', j, Succeeded);
      } else {
        assert (k, Succeeded).0 != j;
        OthersKeepLaw(lim, s, s', j);
      }
    case Clear(d) =>
      var k := s.place[d].job;
      if k == j {
        BuriedIsOpen(s, d, j);
        ResetKeepsLaw(lim, s, s', j, Cleared);
      } else {
        assert (k, Cleared).0 != j;
        OthersKeepLaw(lim, s, s', j);
      }
    case _ => OthersKeepLaw(lim, s, s', j);
  }

  lemma BuriedIsOpen(s: State, d: nat, j: Job)
    requires d in s.place && Burying(s.place[d], j)
    ensures Open(s, j)
  {
  }

  lemma {:induction false} LawKept(lim: Limits, s: State, evs: seq<Event>, s': State, j: Job)
    requires RunFrom(lim, s, evs, s') && SteadyRun(evs) && Exclusive(lim, s, evs, j)
    requires Aligned(lim, s, j) && Lawful(lim, s.books.log, j)
    ensures Aligned(lim, s', j) && Lawful(lim, s'.books.log, j)
    decreases |evs|
  {
    if evs != [] {
      var n := |evs| - 1;
      var m :| RunFrom(lim, s, evs[..n], m) && Enabled(m, evs[n]) && s' == Effect(lim, m, evs[n]);
      ExclusiveFront(lim, s, evs, j, n);
      LawKept(lim, s, evs[..n], m, j);
      assert !Overlaps(m, evs[n], j);
      hide RunFrom, Enabled, Effect, Aligned, Lawful, Exclusive, Overlaps;
      StepLaw(lim, m, evs[n], j);
    }
  }

  lemma ExclusiveFront(lim: Limits, s: State, evs: seq<Event>, j: Job, n: nat)
    requires Exclusive(lim, s, evs, j) && n <= |evs|
    ensures Exclusive(lim, s, evs[..n], j)
  {
    hide RunFrom, Overlaps;
    forall i, m | 0 <= i < n && RunFrom(lim, s, evs[..n][..i], m) ensures !Overlaps(m, evs[..n][i], j) {
      assert evs[..n][..i] == evs[..i];
    }
  }

  lemma AlignedAtFirst(lim: Limits, j: Job)
    ensures Aligned(lim, Init(), j) && Lawful(lim, Init().books.log, j)
  {
  }

  /**
   * The streak law. Without counter expiry or raised writes, and if no delivery of the job is counted
   * between a dead-lettering handler's count and its clearing of the counter, a failure is
   * dead-lettered exactly if it completes a multiple of MAX_RETRIES + 1 consecutive failures.
   */
  lemma StreakLaw(lim: Limits, evs: seq<Event>, s: State, j: Job)
    requires Run(lim, evs, s) && SteadyRun(evs) && Exclusive(lim, Init(), evs, j)
    ensures Lawful(lim, s.books.log, j)
  {
    AlignedAtFirst(lim, j);
    hide *;
    Unfold(lim, evs, s);
    LawKept(lim, Init(), evs, s, j);
  }

  lemma Unfold(lim: Limits, evs: seq<Event>, s: State)
    ensures Run(lim, evs, s) <==> RunFrom(lim, Init(), evs, s)
  {
  }

  // ---- The condition is exact ----

  lemma NoOverlapAt(lim: Limits, s: State, evs: seq<Event>, j: Job, i: nat, m: State)
    requires Exclusive(lim, s, evs, j) && i < |evs| && RunFrom(lim, s, evs[..i], m)
    ensures !Overlaps(m, evs[i], j)
  {
    hide RunFrom, Overlaps;
  }

  lemma ExclusiveLater(lim: Limits, s: State, evs: seq<Event>, m: State, more: seq<Event>, j: Job, i: nat, q: State)
    requires RunFrom(lim, s, evs, m) && Exclusive(lim, m, more, j)
    requires |evs| <= i < |evs| + |more| && RunFrom(lim, s, (evs + more)[..i], q)
    ensures !Overlaps(q, (evs + more)[i], j)
  {
    hide *;
    var all, k := (evs + more)[..i], i - |evs|;
    var a := RunSplit(lim, s, all, q, |evs|);
    assert all[..|evs|] == evs && all[|evs|..] == more[..k];
    RunUnique(lim, s, evs, a, m);
    NoOverlapAt(lim, m, more, j, k, q);
  }

  lemma ExclusiveJoin(lim: Limits, s: State, evs: seq<Event>, m: State, more: seq<Event>, j: Job)
    requires RunFrom(lim, s, evs, m)
    requires Exclusive(lim, s, evs, j) && Exclusive(lim, m, more, j)
    ensures Exclusive(lim, s, evs + more, j)
  {
    hide Overlaps, RunFrom;
    var all := evs + more;
    forall i, q | 0 <= i < |all| && RunFrom(lim, s, all[..i], q) ensures !Overlaps(q, all[i], j) {
      if i < |evs| {
        assert all[..i] == evs[..i];
      } else {
        ExclusiveLater(lim, s, evs, m, more, j, i, q);
      }
    }
  }

  lemma ExclusiveOne(lim: Limits, s: State, e: Event, j: Job)
    requires !Overlaps(s, e, j)
    ensures Exclusive(lim, s, [e], j)
  {
    hide Overlaps;
    forall i, m | 0 <= i < 1 && RunFrom(lim, s, [e][..i], m) ensures !Overlaps(m, [e][i], j) {
      assert [e][..i] == [];
    }
  }

  lemma RunOne(lim: Limits, s: State, e: Event)
    requires Enabled(s, e)
    ensures RunFrom(lim, s, [e], Effect(lim, s, e))
  {
    RunOneMore(lim, s, [], s, e);
    assert [] + [e] == [e];
  }

  /** A steady run without overlap that goes on from `s`. */
  ghost predicate Quiet(lim: Limits, s: State, evs: seq<Event>, s': State, j: Job) {
    RunFrom(lim, s, evs, s') && SteadyRun(evs) && Exclusive(lim, s, evs, j)
  }

  lemma QuietJoin(lim: Limits, s: State, evs: seq<Event>, m: State, more: seq<Event>, s': State, j: Job)
    requires Quiet(lim, s, evs, m, j) && Quiet(lim, m, more, s', j)
    ensures Quiet(lim, s, evs + more, s', j)
  {
    ExclusiveJoin(lim, s, evs, m, more, j);
    hide RunFrom, Exclusive;
    RunJoin(lim, s, evs, m, more, s');
  }

  lemma QuietOne(lim: Limits, s: State, e: Event, j: Job)
    requires Enabled(s, e) && Steady(e) && !Overlaps(s, e, j)
    ensures Quiet(lim, s, [e], Effect(lim, s, e), j)
  {
    hide Overlaps, Enabled, Effect;
    RunOne(lim, s, e);
    ExclusiveOne(lim, s, e, j);
  }

  lemma QuietNone(lim: Limits, s: State, j: Job)
    ensures Quiet(lim, s, [], s, j)
  {
  }

  /** Let one handler in the window take its next step. */
  lemma BuryOrClear(lim: Limits, s: State, d: nat, j: Job) returns (e: Event)
    requires d in s.place && Burying(s.place[d], j)
    ensures Enabled(s, e) && Steady(e) && !e.Fail?
    ensures var s' := Effect(lim, s, e);
      && Streak(s'.books.log, j) == Streak(s.books.log, j)
      && 2 * |At(s'.place, Counted(j))| + |At(s'.place, Buried(j))|
         < 2 * |At(s.place, Counted(j))| + |At(s.place, Buried(j))|
      && (Count(s'.books.counters, j) == 0 || Open(s', j))
  {
    e := if s.place[d] == Counted(j) then Bury(d) else Clear(d);
    var s' := Effect(lim, s, e);
    MoveAt(s.place, d, s'.place[d], Counted(j));
    MoveAt(s.place, d, s'.place[d], Buried(j));
    LogOneMore(lim, s.books.log, j, (j, Cleared));
    if e.Bury? { BuriedIsOpen(s', d, j); }
  }

  /** Every window closes, and nothing is counted meanwhile. */
  lemma {:induction false} CloseAll(lim: Limits, s: State, j: Job) returns (more: seq<Event>, s': State)
    requires Count(s.books.counters, j) == 0 || Open(s, j)
    ensures Quiet(lim, s, more, s', j) && !Open(s', j) && Count(s'.books.counters, j) == 0
    ensures Streak(s'.books.log, j) == Streak(s.books.log, j)
    decreases 2 * |At(s.place, Counted(j))| + |At(s.place, Buried(j))|
  {
    if d :| d in s.place && Burying(s.place[d], j) {
      var e := BuryOrClear(lim, s, d, j);
      NoOverlap(s, e, j);
      hide *;
      var rest;
      rest, s' := CloseAll(lim, Effect(lim, s, e), j);
      QuietOne(lim, s, e, j);
      QuietJoin(lim, s, [e], Effect(lim, s, e), rest, s', j);
      more := [e] + rest;
    } else {
      more, s' := [], s;
      QuietNone(lim, s, j);
    }
  }

  lemma NoOverlap(s: State, e: Event, j: Job)
    requires !e.Fail? || !Open(s, j)
    ensures !Overlaps(s, e, j)
  {
  }

  /** The events by which a fresh replica starts a fresh delivery of the job. */
  lemma FreshStart(lim: Limits, s: State, j: Job) returns (w: nat, d: nat)
    requires lim.concurrency >= 1
    ensures d !in s.place && Enabled(s, Join(w))
    ensures var s1 := Effect(lim, s, Join(w));
      && Enabled(s1, Fetch(d, w, Some(j))) && s1.place == s.place
      && var s2 := Effect(lim, s1, Fetch(d, w, Some(j)));
      && Enabled(s2, Start(d)) && s2.place == s.place[d := Fetched(Some(j))]
      && var s' := Effect(lim, s2, Start(d));
      && s'.books == s.books && s'.place == s.place[d := Running(Some(j))]
  {
    w := Above(s.free.Keys);
    d := Above(s.place.Keys + s.owner.Keys);
  }

  /** A fresh replica starts a fresh delivery of the job. */
  lemma StartFresh(lim: Limits, s: State, j: Job) returns (more: seq<Event>, s': State, d: nat)
    requires lim.concurrency >= 1 && !Open(s, j)
    ensures Quiet(lim, s, more, s', j) && !Open(s', j) && s'.books == s.books
    ensures d !in s.place && s'.place == s.place[d := Running(Some(j))]
  {
    hide Open, Overlaps, Quiet, Enabled, Effect;
    var w;
    w, d := FreshStart(lim, s, j);
    var e0, e1, e2 := Join(w), Fetch(d, w, Some(j)), Start(d);
    var s1 := Effect(lim, s, e0);
    var s2 := Effect(lim, s1, e1);
    s' := Effect(lim, s2, e2);
    OpenByPlace(s, s', d, Running(Some(j)), j);
    NotCounted(s, e0, j);
    NotCounted(s1, e1, j);
    NotCounted(s2, e2, j);
    QuietOne(lim, s, e0, j);
    QuietOne(lim, s1, e1, j);
    QuietOne(lim, s2, e2, j);
    QuietJoin(lim, s, [e0], s1, [e1], s2, j);
    QuietJoin(lim, s, [e0] + [e1], s2, [e2], s', j);
    more := [e0] + [e1] + [e2];
  }

  lemma NotCounted(s: State, e: Event, j: Job)
    requires !e.Fail?
    ensures !Overlaps(s, e, j)
  {
  }

  lemma FailOnce(lim: Limits, s: State, j: Job) returns (more: seq<Event>, s': State)
    requires lim.concurrency >= 1 && !Open(s, j) && Count(s.books.counters, j) < lim.maxRetries
    ensures Quiet(lim, s, more, s', j) && !Open(s', j)
    ensures s'.books.log == s.books.log + [(j, Failed(Count(s.books.counters, j) + 1))]
    ensures Count(s'.books.counters, j) == Count(s.books.counters, j) + 1
  {
    var start, m, d := StartFresh(lim, s, j);
    s' := Effect(lim, m, Fail(d));
    NoOverlap(m, Fail(d), j);
    FailOpens(lim, m, d, j);
    hide Open, Overlaps, Quiet;
    QuietOne(lim, m, Fail(d), j);
    QuietJoin(lim, s, start, m, [Fail(d)], s', j);
    more := start + [Fail(d)];
  }

  /** Failures one after the other, none of them overlapping, raise counter and streak together. */
  lemma {:induction false} CountUp(lim: Limits, s: State, j: Job, k: nat) returns (more: seq<Event>, s': State)
    requires lim.concurrency >= 1 && !Open(s, j) && Count(s.books.counters, j) + k <= lim.maxRetries
    ensures Quiet(lim, s, more, s', j) && !Open(s', j)
    ensures Count(s'.books.counters, j) == Count(s.books.counters, j) + k
    ensures Streak(s'.books.log, j) == Streak(s.books.log, j) + k
    decreases k
  {
    hide Quiet, Open, Lawful, Streak;
    if k == 0 {
      more, s' := [], s;
      QuietNone(lim, s, j);
    } else {
      var front, m := CountUp(lim, s, j, k - 1);
      LogOneMore(lim, m.books.log, j, (j, Failed(Count(m.books.counters, j) + 1)));
      var last;
      last, s' := FailOnce(lim, m, j);
      QuietJoin(lim, s, front, m, last, s', j);
      more := front + last;
    }
  }

  /**
   * A counter that has fallen behind the streak breaks the law: the failure that completes the
   * multiple is counted too low to be dead-lettered.
   */
  lemma BehindBreaks(lim: Limits, s: State, j: Job, k: nat) returns (more: seq<Event>, s': State)
    requires lim.concurrency >= 1 && !Open(s, j) && k >= 1 && Count(s.books.counters, j) + k <= lim.maxRetries
    requires (Streak(s.books.log, j) + k) % (lim.maxRetries + 1) == 0
    ensures Quiet(lim, s, more, s', j) && !Lawful(lim, s'.books.log, j)
  {
    hide Quiet, Open, Lawful, Streak;
    var front, m := CountUp(lim, s, j, k - 1);
    var a := Count(m.books.counters, j) + 1;
    LogOneMore(lim, m.books.log, j, (j, Failed(a)));
    var last;
    last, s' := FailOnce(lim, m, j);
    TooLow(lim, m.books.log, j, a);
    QuietJoin(lim, s, front, m, last, s', j);
    more := front + last;
  }

  lemma TooLow(lim: Limits, log: Log, j: Job, a: nat)
    requires a <= lim.maxRetries && Streak(log + [(j, Failed(a))], j) % (lim.maxRetries + 1) == 0
    ensures !Lawful(lim, log + [(j, Failed(a))], j)
  {
    var more := log + [(j, Failed(a))];
    assert more[..|log| + 1] == more;
    assert !LawfulAt(lim, more, j, |log|);
  }

  /** An overlapping count is the end of the law: some continuation breaks it. */
  lemma OverlapBreaks(lim: Limits, s: State, e: Event, j: Job) returns (more: seq<Event>, s': State)
    requires Enabled(s, e) && Overlaps(s, e, j) && Aligned(lim, s, j)
    requires lim.concurrency >= 1 && lim.maxRetries >= 1
    ensures Quiet(lim, Effect(lim, s, e), more, s', j) && !Lawful(lim, s'.books.log, j)
  {
    var m, r, p := Effect(lim, s, e), Streak(s.books.log, j), lim.maxRetries + 1;
    LogOneMore(lim, s.books.log, j, (j, Failed(Count(s.books.counters, j) + 1)));
    assert Streak(m.books.log, j) == r + 1;
    WindowsMove(lim, s, e, j);
    assert Open(m, j);
    WholePeriod(r, p);
    hide Open, Overlaps, Lawful, Streak, Effect, Enabled, Quiet;
    var close, q := CloseAll(lim, m, j);
    var rest;
    rest, s' := BehindBreaks(lim, q, j, lim.maxRetries);
    QuietJoin(lim, m, close, q, rest, s', j);
    more := close + rest;
  }

  lemma BothFail(lim: Limits, s: State, a: nat, b: nat, j: Job)
    requires a != b && Enabled(s, Fail(a)) && Enabled(s, Fail(b))
    requires s.place[a] == Running(Some(j)) && s.place[b] == Running(Some(j))
    requires Count(s.books.counters, j) == lim.maxRetries
    ensures Enabled(Effect(lim, s, Fail(a)), Fail(b))
    ensures var m := Effect(lim, s, Fail(a)); var s' := Effect(lim, m, Fail(b));
      && m.books.log == s.books.log + [(j, Failed(lim.maxRetries + 1))]
      && s'.books.log == m.books.log + [(j, Failed(lim.maxRetries + 2))]
      && s'.place[a] == Counted(j) && s'.place[b] == Counted(j)
  {
  }

  /** Two deliveries of one job, both failing at the limit, are both dead-lettered. */
  lemma BothDie(lim: Limits, s: State, a: nat, b: nat, j: Job)
    requires a != b && Enabled(s, Fail(a)) && Enabled(s, Fail(b))
    requires s.place[a] == Running(Some(j)) && s.place[b] == Running(Some(j))
    requires lim.maxRetries >= 1 && Count(s.books.counters, j) == lim.maxRetries
    requires Streak(s.books.log, j) == lim.maxRetries
    ensures Enabled(Effect(lim, s, Fail(a)), Fail(b))
    ensures var s' := Effect(lim, Effect(lim, s, Fail(a)), Fail(b));
      s'.place[a] == Counted(j) && s'.place[b] == Counted(j) && !Lawful(lim, s'.books.log, j)
  {
    BothFail(lim, s, a, b, j);
    hide Lawful, Streak, Effect, Enabled;
    var max, log := lim.maxRetries, s.books.log;
    var more := log + [(j, Failed(max + 1))];
    LogOneMore(lim, log, j, (j, Failed(max + 1)));
    LogOneMore(lim, more, j, (j, Failed(max + 2)));
    TooHigh(lim, more, j, max + 2);
  }

  lemma TooHigh(lim: Limits, log: Log, j: Job, a: nat)
    requires lim.maxRetries >= 1 && a > lim.maxRetries && Streak(log + [(j, Failed(a))], j) == lim.maxRetries + 2
    ensures !Lawful(lim, log + [(j, Failed(a))], j)
  {
    var more := log + [(j, Failed(a))];
    assert more[..|log| + 1] == more;
    RemainderUnique(lim.maxRetries + 2, lim.maxRetries + 1, 1, 1);
    assert !LawfulAt(lim, more, j, |log|);
  }

  /** Such a run exists for every worker that retries: the law does not hold of all runs. */
  lemma OverlapRun(lim: Limits, j: Job) returns (evs: seq<Event>, s: State, a: nat, b: nat)
    requires lim.concurrency >= 1 && lim.maxRetries >= 1
    ensures Run(lim, evs, s) && a != b && a in s.place && b in s.place
    ensures s.place[a] == Counted(j) && s.place[b] == Counted(j) && !Lawful(lim, s.books.log, j)
  {
    NeverOpen(j);
    var e1, s1 := CountUp(lim, Init(), j, lim.maxRetries);
    assert Streak([], j) == 0 && Count(map[], j) == 0;
    hide Open, Streak, Lawful, Enabled;
    var e2, s2;
    e2, s2, a := StartFresh(lim, s1, j);
    var e3, s3;
    e3, s3, b := StartFresh(lim, s2, j);
    BothRun(s3, a, b, j);
    BothDie(lim, s3, a, b, j);
    hide Effect, RunFrom;
    QuietJoin(lim, Init(), e1, s1, e2, s2, j);
    QuietJoin(lim, Init(), e1 + e2, s2, e3, s3, j);
    var m := Effect(lim, s3, Fail(a));
    s := Effect(lim, m, Fail(b));
    RunOneMore(lim, Init(), e1 + e2 + e3, s3, Fail(a));
    RunOneMore(lim, Init(), e1 + e2 + e3 + [Fail(a)], m, Fail(b));
    evs := e1 + e2 + e3 + [Fail(a)] + [Fail(b)];
  }

  lemma NeverOpen(j: Job)
    ensures !Open(Init(), j)
  {
  }

  lemma BothRun(s: State, a: nat, b: nat, j: Job)
    requires a in s.place && b in s.place && s.place[a] == Running(Some(j)) && s.place[b] == Running(Some(j))
    ensures Enabled(s, Fail(a)) && Enabled(s, Fail(b))
  {
  }

  /** With no retries at all every failure is dead-lettered, and every count is a multiple of one. */
  lemma {:induction false} NoRetriesLawful(lim: Limits, s: State, evs: seq<Event>, s': State, j: Job)
    requires RunFrom(lim, s, evs, s') && lim.maxRetries == 0 && Lawful(lim, s.books.log, j)
    ensures Lawful(lim, s'.books.log, j)
    decreases |evs|
  {
    if evs != [] {
      var n := |evs| - 1;
      var m :| RunFrom(lim, s, evs[..n], m) && Enabled(m, evs[n]) && s' == Effect(lim, m, evs[n]);
      NoRetriesLawful(lim, s, evs[..n], m, j);
      hide RunFrom, Lawful;
      NoRetriesStep(lim, m, evs[n], j);
    }
  }

  lemma NoRetriesStep(lim: Limits, s: State, e: Event, j: Job)
    requires Enabled(s, e) && lim.maxRetries == 0 && Lawful(lim, s.books.log, j)
    ensures Lawful(lim, Effect(lim, s, e).books.log, j)
  {
    LogGrows(lim, s, e);
    hide Effect, Lawful, Streak;
    if MarkOf(s, e).Some? {
      LogOneMore(lim, s.books.log, j, MarkOf(s, e).value);
      assert (s.books.log + [MarkOf(s, e).value])[|s.books.log|] == MarkOf(s, e).value;
    } else {
      assert s.books.log + [] == s.books.log;
    }
  }

  /** A handler runs only where there is a permit to run it. */
  lemma RunningNeedsPermit(lim: Limits, evs: seq<Event>, s: State, d: nat)
    requires Run(lim, evs, s) && d in s.place && Holding(s.place[d])
    ensures lim.concurrency >= 1
  {
    PermitsBalance(lim, evs, s, if d in s.owner then s.owner[d] else 0);
    assert d in Active(s, s.owner[d]);
    hide Run;
  }

  /** At every moment of the run the law can be relied on for whatever follows. */
  ghost predicate ReliableThroughout(lim: Limits, evs: seq<Event>, j: Job) {
    forall i, m :: 0 <= i <= |evs| && RunFrom(lim, Init(), evs[..i], m) ==> Reliable(lim, m, j)
  }

  lemma ExclusiveIsReliable(lim: Limits, evs: seq<Event>, j: Job, i: nat, m: State)
    requires SteadyRun(evs) && Exclusive(lim, Init(), evs, j)
    requires i <= |evs| && RunFrom(lim, Init(), evs[..i], m)
    ensures Reliable(lim, m, j)
  {
    hide RunFrom, Aligned, Lawful, Exclusive;
    AlignedAtFirst(lim, j);
    ExclusiveFront(lim, Init(), evs, j, i);
    LawKept(lim, Init(), evs[..i], m, j);
    forall more, s' | RunFrom(lim, m, more, s') && SteadyRun(more) && Exclusive(lim, m, more, j)
      ensures Lawful(lim, s'.books.log, j)
    {
      LawKept(lim, m, more, s', j);
    }
  }

  /** The first overlap of a run makes the law unreliable from then on. */
  lemma FirstOverlap(lim: Limits, evs: seq<Event>, s: State, j: Job, i: nat, m: State)
    requires Run(lim, evs, s) && SteadyRun(evs) && lim.maxRetries >= 1 && i < |evs|
    requires Exclusive(lim, Init(), evs[..i], j)
    requires RunFrom(lim, Init(), evs[..i], m) && Overlaps(m, evs[i], j)
    ensures !ReliableThroughout(lim, evs, j)
  {
    hide RunFrom, Aligned, Lawful, Exclusive;
    AlignedAtFirst(lim, j);
    LawKept(lim, Init(), evs[..i], m, j);
    EventTaken(lim, evs, s, i, m);
    Unfold(lim, evs[..i], m);
    RunningNeedsPermit(lim, evs[..i], m, evs[i].d);
    var more, s' := OverlapBreaks(lim, m, evs[i], j);
    hide Overlaps, Enabled, Effect;
    assert !Reliable(lim, Effect(lim, m, evs[i]), j);
  }

  lemma EventTaken(lim: Limits, evs: seq<Event>, s: State, i: nat, m: State)
    requires Run(lim, evs, s) && i < |evs| && RunFrom(lim, Init(), evs[..i], m)
    ensures Enabled(m, evs[i]) && RunFrom(lim, Init(), evs[..i + 1], Effect(lim, m, evs[i]))
  {
    var q := RunSplit(lim, Init(), evs, s, i + 1);
    assert evs[..i + 1][..i] == evs[..i];
    var x :| RunFrom(lim, Init(), evs[..i], x) && Enabled(x, evs[i]) && q == Effect(lim, x, evs[i]);
    hide Enabled, Effect;
    RunUnique(lim, Init(), evs[..i], x, m);
  }

  lemma {:induction false} FindOverlap(lim: Limits, evs: seq<Event>, j: Job, n: nat) returns (i: nat, m: State)
    requires n <= |evs| && !Exclusive(lim, Init(), evs[..n], j)
    ensures i < n && Exclusive(lim, Init(), evs[..i], j)
    ensures RunFrom(lim, Init(), evs[..i], m) && Overlaps(m, evs[i], j)
    decreases n
  {
    hide RunFrom, Overlaps;
    var k: int, q :| 0 <= k < n && RunFrom(lim, Init(), evs[..n][..k], q) && Overlaps(q, evs[..n][k], j);
    assert evs[..n][..k] == evs[..k];
    if Exclusive(lim, Init(), evs[..k], j) {
      i, m := k, q;
    } else {
      i, m := FindOverlap(lim, evs, j, k);
    }
  }

  /**
   * The streak law's condition is exact. Along a steady run the law can be relied on at every moment
   * if and only if no delivery of the job was counted inside another's window, or
   * nothing is ever retried.
   */
  lemma StreakLawIff(lim: Limits, evs: seq<Event>, s: State, j: Job)
    requires Run(lim, evs, s) && SteadyRun(evs)
    ensures ReliableThroughout(lim, evs, j) <==> Exclusive(lim, Init(), evs, j) || lim.maxRetries == 0
  {
    hide RunFrom, Reliable, Exclusive, Run, Lawful, Overlaps;
    if Exclusive(lim, Init(), evs, j) {
      forall i, m | 0 <= i <= |evs| && RunFrom(lim, Init(), evs[..i], m) ensures Reliable(lim, m, j) {
        ExclusiveIsReliable(lim, evs, j, i, m);
      }
    } else if lim.maxRetries == 0 {
      forall i, m | 0 <= i <= |evs| && RunFrom(lim, Init(), evs[..i], m) ensures Reliable(lim, m, j) {
        NoRetriesReliable(lim, evs[..i], m, j);
      }
    } else {
      assert evs[..|evs|] == evs;
      var i, m := FindOverlap(lim, evs, j, |evs|);
      FirstOverlap(lim, evs, s, j, i, m);
    }
  }

  lemma NoRetriesReliable(lim: Limits, evs: seq<Event>, m: State, j: Job)
    requires RunFrom(lim, Init(), evs, m) && lim.maxRetries == 0
    ensures Reliable(lim, m, j)
  {
    AlignedAtFirst(lim, j);
    hide RunFrom, Lawful, Exclusive;
    NoRetriesLawful(lim, Init(), evs, m, j);
    forall more, s' | RunFrom(lim, m, more, s') ensures Lawful(lim, s'.books.log, j) {
      NoRetriesLawful(lim, m, more, s', j);
    }
  }
}

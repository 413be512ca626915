/**
 * The consume loop as an object: the code of one handler between its awaits, run while all other
 * handlers do as they like.
 */
module Handlers {
  import opened Prelude
  import opened Worker

  // ---- The handlers' own code ----

  /** The events of a run that move one delivery. */
  ghost function Own(evs: seq<Event>, d: nat): seq<Event> {
    if evs == [] then []
    else Own(evs[..|evs| - 1], d) + if Moves(evs[|evs| - 1]) == Some(d) then [evs[|evs| - 1]] else []
  }

  /** A run from `s` to `s'` in which the delivery takes exactly its own steps, among any others. */
  ghost predicate Interleaved(lim: Limits, s: State, s': State, d: nat, own: seq<Event>) {
    exists evs :: RunFrom(lim, s, evs, s') && Own(evs, d) == own
  }

  lemma TakeStep(lim: Limits, s: State, m: State, d: nat, own: seq<Event>, e: Event)
    requires Interleaved(lim, s, m, d, own) && Enabled(m, e)
    ensures Interleaved(lim, s, Effect(lim, m, e), d, if Moves(e) == Some(d) then own + [e] else own)
  {
    hide Enabled, Effect;
    var evs :| RunFrom(lim, s, evs, m) && Own(evs, d) == own;
    RunOneMore(lim, s, evs, m, e);
    assert (evs + [e])[..|evs|] == evs;
    assert Own(evs + [e], d) == if Moves(e) == Some(d) then own + [e] else own;
  }

  lemma FirstStep(lim: Limits, s: State, m: State, d: nat, e: Event)
    requires Interleaved(lim, s, m, d, []) && Enabled(m, e) && Moves(e) == Some(d)
    ensures Interleaved(lim, s, Effect(lim, m, e), d, [e])
  {
    TakeStep(lim, s, m, d, [], e);
    assert [] + [e] == [e];
  }

  lemma NoStep(lim: Limits, s: State, d: nat)
    ensures Interleaved(lim, s, s, d, [])
  {
    assert RunFrom(lim, s, [], s) && Own([], d) == [];
  }

  /** Which of a handler's writes would raise: the first after the run, and the three that may follow. */
  datatype Faults = Faults(first: bool, expire: bool, bury: bool, clear: bool)

  /** What a handler does once it has counted one failure too many. */
  function LastSteps(d: nat, faults: Faults): seq<Event> {
    if faults.bury then [BuryRaises(d)] else [Bury(d), if faults.clear then ClearRaises(d) else Clear(d)]
  }

  /**
   * What a handler does before its finally block: by its message, its outcome, its count, and the
   * writes that raise. A run that went through but whose counter could not be cleared has failed.
   */
  ghost predicate OutcomeSteps(d: nat, names: Option<Job>, ok: bool, faults: Faults, own: seq<Event>) {
    if names.None? then own == [if faults.first then CountRaises(d) else Poison(d)]
    else if ok then own == [Succeed(d)]
    else if faults.first then own == [CountRaises(d)]
    else if faults.expire then own == [ExpireRaises(d)]
    else own == [Fail(d)] || own == [Fail(d)] + LastSteps(d, faults)
  }

  /** Other handlers cannot move a delivery, nor the permit it holds. */
  lemma StaysPut(lim: Limits, s: State, e: Event, d: nat)
    requires Enabled(s, e) && Moves(e) != Some(d)
    requires d in s.place && d in s.owner && s.owner[d] in s.free
    ensures var s' := Effect(lim, s, e);
      && d in s'.place && s'.place[d] == s.place[d]
      && d in s'.owner && s'.owner[d] == s.owner[d] && s'.owner[d] in s'.free
  {
    hide CountFailure, Reset, Schedule, AfterFailure, Lose;
  }

  /** The Redis books and the permits, with the consume loop's segments between two awaits as methods. */
  class ConsumeLoop {
    const lim: Limits
    var free: map<nat, nat>
    var owner: map<nat, nat>
    var place: map<nat, Place>
    var delayed: multiset<Job>
    var resent: multiset<Job>
    var dlq: multiset<Option<Job>>
    var counters: map<Job, nat>
    ghost var log: Log
    ghost var lostRetries: multiset<Job>
    ghost var lostLetters: multiset<Job>

    ghost function View(): State
      reads this
    {
      State(free, owner, place, Books(delayed, resent, dlq, counters, log, lostRetries, lostLetters))
    }

    constructor (lim: Limits)
      ensures this.lim == lim && View() == Init()
    {
      this.lim := lim;
      free, owner, place := map[], map[], map[];
      delayed, resent, dlq, counters, log := multiset{}, multiset{}, multiset{}, map[], [];
      lostRetries, lostLetters := multiset{}, multiset{};
    }

    /** The loop takes a permit before it starts the handler of a fetched message. */
    method Spawn(d: nat)
      requires Enabled(View(), Start(d))
      modifies this`free, this`place
      ensures View() == Effect(lim, old(View()), Start(d))
    {
      free := free[owner[d] := free[owner[d]] - 1];
      place := place[d := Running(place[d].names)];
    }

    /** A message without a job goes straight to the dead letters. */
    method DropPoison(d: nat)
      requires Enabled(View(), Poison(d))
      modifies this`dlq, this`place
      ensures View() == Effect(lim, old(View()), Poison(d))
    {
      dlq := dlq + multiset{None};
      place := place[d := Closing(Dead)];
    }

    /** The run went through: its failures are forgotten. */
    method ForgetFailures(d: nat)
      requires Enabled(View(), Succeed(d))
      modifies this`counters, this`log, this`place
      ensures View() == Effect(lim, old(View()), Succeed(d))
    {
      var job := place[d].names.value;
      counters := counters - {job};
      log := log + [(job, Succeeded)];
      place := place[d := Closing(Clean)];
    }

    /** The run raised: count it, and decide between a retry and a dead letter by the count. */
    method RecordFailure(d: nat) returns (dead: bool)
      requires Enabled(View(), Fail(d))
      modifies this`counters, this`log, this`place
      ensures View() == Effect(lim, old(View()), Fail(d))
      ensures dead <==> place[d].Counted?
      ensures !dead <==> place[d] == Closing(Retry(old(place)[d].names.value))
    {
      hide CountFailure;
      var job := place[d].names.value;
      var attempt := Increment(job);
      if attempt <= lim.maxRetries {
        place := place[d := Closing(Retry(job))];
        return false;
      }
      place := place[d := Counted(job)];
      dead := true;
    }

    method SendToDlq(d: nat)
      requires Enabled(View(), Bury(d))
      modifies this`dlq, this`place
      ensures View() == Effect(lim, old(View()), Bury(d))
    {
      dlq := dlq + multiset{Some(place[d].job)};
      place := place[d := Buried(place[d].job)];
    }

    method ClearCounter(d: nat)
      requires Enabled(View(), Clear(d))
      modifies this`counters, this`log, this`place
      ensures View() == Effect(lim, old(View()), Clear(d))
    {
      var job := place[d].job;
      counters := counters - {job};
      log := log + [(job, Cleared)];
      place := place[d := Closing(Dead)];
    }

    /** The first write after the run raises, so nothing is recorded of it. */
    method Miss(d: nat)
      requires Enabled(View(), CountRaises(d))
      modifies this`place
      ensures View() == Effect(lim, old(View()), CountRaises(d))
    {
      place := place[d := Closing(Lost)];
    }

    /** The failure is counted, but setting the counter's expiry raises before anything is decided. */
    method CountOnly(d: nat)
      requires Enabled(View(), ExpireRaises(d))
      modifies this`counters, this`log, this`place, this`lostRetries, this`lostLetters
      ensures View() == Effect(lim, old(View()), ExpireRaises(d))
    {
      hide CountFailure, Lose;
      var job := place[d].names.value;
      var attempt := Increment(job);
      Drop(job, attempt);
      place := place[d := Closing(Lost)];
    }

    /** The shared counter's own count of this failure. */
    method Increment(job: Job) returns (attempt: nat)
      modifies this`counters, this`log
      ensures attempt == Count(old(counters), job) + 1
      ensures View() == old(View().(books := CountFailure(View().books, job)))
    {
      attempt := 1;
      if job in counters { attempt := counters[job] + 1; }
      counters := counters[job := attempt];
      log := log + [(job, Failed(attempt))];
    }

    ghost method Drop(job: Job, attempt: nat)
      modifies this`lostRetries, this`lostLetters
      ensures View() == old(View().(books := Lose(lim, View().books, job, attempt)))
    {
      if attempt <= lim.maxRetries {
        lostRetries := lostRetries + multiset{job};
      } else {
        lostLetters := lostLetters + multiset{job};
      }
    }

    /** The dead letter cannot be written; the counter is not cleared either. */
    method LoseLetter(d: nat)
      requires Enabled(View(), BuryRaises(d))
      modifies this`place, this`lostLetters
      ensures View() == Effect(lim, old(View()), BuryRaises(d))
    {
      lostLetters := lostLetters + multiset{place[d].job};
      place := place[d := Closing(Lost)];
    }

    /** The dead letter is written, but the counter cannot be cleared. */
    method KeepCounter(d: nat)
      requires Enabled(View(), ClearRaises(d))
      modifies this`place
      ensures View() == Effect(lim, old(View()), ClearRaises(d))
    {
      place := place[d := Closing(Dead)];
    }

    /** Acknowledge and release the permit; the back-off of a retry starts only after that. */
    method Acknowledge(d: nat)
      requires Enabled(View(), Ack(d))
      modifies this`place, this`free, this`delayed
      ensures View() == Effect(lim, old(View()), Ack(d))
    {
      var verdict := place[d].verdict;
      place := place[d := Acked];
      free := free[owner[d] := free[owner[d]] + 1];
      if verdict.Retry? {
        delayed := delayed + multiset{verdict.job};
      }
    }

    /** Any one step, of any handler of any replica. */
    method Apply(e: Event)
      requires Enabled(View(), e)
      modifies this
      ensures View() == Effect(lim, old(View()), e)
    {
      hide Enabled, Effect;
      if e.Join? || e.Fetch? || e.Resend? || e.ResendRaises? || e.Expire? {
        ApplyOutside(e);
      } else if e.Start? || e.Ack? || e.AckRaises? {
        ApplyAround(e);
      } else {
        ApplyWrite(e);
      }
    }

    /** What happens outside the handlers' try and finally blocks. */
    method ApplyOutside(e: Event)
      requires Enabled(View(), e) && (e.Join? || e.Fetch? || e.Resend? || e.ResendRaises? || e.Expire?)
      modifies this
      ensures View() == Effect(lim, old(View()), e)
    {
      hide Enabled, Effect;
      match e
      case Join(w) => JoinGroup(w);
      case Fetch(d, w, names) => Deliver(d, w, names);
      case Resend(j) => Reenqueue(j);
      case ResendRaises(j) => LoseRetry(j);
      case Expire(j) => ExpireCounter(j);
    }

    method JoinGroup(w: nat)
      requires Enabled(View(), Join(w))
      modifies this`free
      ensures View() == Effect(lim, old(View()), Join(w))
    {
      free := free[w := lim.concurrency];
    }

    method Deliver(d: nat, w: nat, names: Option<Job>)
      requires Enabled(View(), Fetch(d, w, names))
      modifies this`owner, this`place
      ensures View() == Effect(lim, old(View()), Fetch(d, w, names))
    {
      owner := owner[d := w];
      place := place[d := Fetched(names)];
    }

    /** The back-off is over: the message goes into the stream again. */
    method Reenqueue(j: Job)
      requires Enabled(View(), Resend(j))
      modifies this`delayed, this`resent
      ensures View() == Effect(lim, old(View()), Resend(j))
    {
      delayed := delayed - multiset{j};
      resent := resent + multiset{j};
    }

    /** The back-off is over, but the message cannot be written. */
    method LoseRetry(j: Job)
      requires Enabled(View(), ResendRaises(j))
      modifies this`delayed, this`lostRetries
      ensures View() == Effect(lim, old(View()), ResendRaises(j))
    {
      delayed := delayed - multiset{j};
      lostRetries := lostRetries + multiset{j};
    }

    method ExpireCounter(j: Job)
      requires Enabled(View(), Expire(j))
      modifies this`counters
      ensures View() == Effect(lim, old(View()), Expire(j))
    {
      counters := counters - {j};
    }

    method ApplyAround(e: Event)
      requires Enabled(View(), e) && (e.Start? || e.Ack? || e.AckRaises?)
      modifies this
      ensures View() == Effect(lim, old(View()), e)
    {
      match e
      case Start(d) => Spawn(d);
      case Ack(d) => Acknowledge(d);
      case AckRaises(d) => place := place[d := Stuck(place[d].verdict)];
    }

    method ApplyWrite(e: Event)
      requires Enabled(View(), e)
      requires e.Poison? || e.Succeed? || e.Fail? || e.Bury? || e.Clear?
            || e.CountRaises? || e.ExpireRaises? || e.BuryRaises? || e.ClearRaises?
      modifies this
      ensures View() == Effect(lim, old(View()), e)
    {
      hide Enabled, Effect;
      match e
      case Poison(d) => DropPoison(d);
      case Succeed(d) => ForgetFailures(d);
      case Fail(d) => FailOnly(d);
      case Bury(d) => SendToDlq(d);
      case Clear(d) => ClearCounter(d);
      case CountRaises(d) => Miss(d);
      case ExpireRaises(d) => CountOnly(d);
      case BuryRaises(d) => LoseLetter(d);
      case ClearRaises(d) => KeepCounter(d);
    }

    method FailOnly(d: nat)
      requires Enabled(View(), Fail(d))
      modifies this
      ensures View() == Effect(lim, old(View()), Fail(d))
    {
      var _ := RecordFailure(d);
    }

    /** What the others do while a handler awaits: everything they can, except move its delivery. */
    method Await(d: nat, others: seq<Event>, ghost start: State, ghost own: seq<Event>)
      requires Interleaved(lim, start, View(), d, own)
      requires d in place && d in owner && owner[d] in free
      modifies this
      ensures Interleaved(lim, start, View(), d, own)
      ensures d in place && place[d] == old(place)[d] && d in owner && owner[d] in free
    {
      hide Interleaved;
      for i := 0 to |others|
        invariant Interleaved(lim, start, View(), d, own)
        invariant d in place && place[d] == old(place)[d] && d in owner && owner[d] in free
      {
        var e := others[i];
        var can := CanApply(e);
        if Moves(e) != Some(d) && can {
          TakeStep(lim, start, View(), d, own, e);
          StaysPut(lim, View(), e, d);
          Apply(e);
        }
      }
    }

    method CanApply(e: Event) returns (can: bool)
      ensures can == Enabled(View(), e)
    {
      can := Enabled(State(free, owner, place, Books(delayed, resent, dlq, counters, [], multiset{}, multiset{})), e);
    }

    /** The try block of a handler, with whatever happens at its awaits. */
    method Outcome(d: nat, ok: bool, faults: Faults, others: seq<seq<Event>>, ghost start: State)
      returns (ghost own: seq<Event>)
      requires d in place && place[d].Running? && d in owner && owner[d] in free && |others| == 2
      requires Interleaved(lim, start, View(), d, [])
      modifies this
      ensures d in place && place[d].Closing? && d in owner && owner[d] in free
      ensures Interleaved(lim, start, View(), d, own)
      ensures OutcomeSteps(d, old(place[d].names), ok, faults, own)
    {
      hide Interleaved, CountFailure, Reset, Schedule, Lose;
      if place[d].names.None? {
        own := WriteFirst(d, faults, start);
      } else if ok {
        own := [Succeed(d)];
        FirstStep(lim, start, View(), d, Succeed(d));
        ForgetFailures(d);
      } else if faults.first || faults.expire {
        own := WriteFirst(d, faults, start);
      } else {
        own := [Fail(d)];
        FirstStep(lim, start, View(), d, Fail(d));
        var dead := RecordFailure(d);
        if dead { own := GiveUp(d, faults, others, start, own); }
      }
    }

    /** The try block ends with its first write, or with the count whose expiry could not be set. */
    method WriteFirst(d: nat, faults: Faults, ghost start: State) returns (ghost own: seq<Event>)
      requires d in place && place[d].Running? && d in owner && owner[d] in free
      requires place[d].names.None? || faults.first || faults.expire
      requires Interleaved(lim, start, View(), d, [])
      modifies this
      ensures d in place && place[d].Closing? && d in owner && owner[d] in free
      ensures Interleaved(lim, start, View(), d, own)
      ensures OutcomeSteps(d, old(place[d].names), false, faults, own)
    {
      hide Interleaved, CountFailure, Reset, Schedule, Lose;
      if faults.first {
        own := [CountRaises(d)];
        FirstStep(lim, start, View(), d, CountRaises(d));
        Miss(d);
      } else if place[d].names.None? {
        own := [Poison(d)];
        FirstStep(lim, start, View(), d, Poison(d));
        DropPoison(d);
      } else {
        own := [ExpireRaises(d)];
        FirstStep(lim, start, View(), d, ExpireRaises(d));
        CountOnly(d);
      }
    }

    /** One failure too many: dead-letter the job, then clear its counter. */
    method GiveUp(d: nat, faults: Faults, others: seq<seq<Event>>, ghost start: State, ghost own0: seq<Event>)
      returns (ghost own: seq<Event>)
      requires d in place && place[d].Counted? && d in owner && owner[d] in free && |others| == 2
      requires Interleaved(lim, start, View(), d, own0)
      modifies this
      ensures d in place && place[d].Closing? && d in owner && owner[d] in free
      ensures own == own0 + LastSteps(d, faults) && Interleaved(lim, start, View(), d, own)
    {
      hide Interleaved, CountFailure, Reset, Schedule, Lose;
      Await(d, others[0], start, own0);
      var first := WriteLetter(d, faults, start, own0);
      own := own0 + [first];
      if !faults.bury {
        Await(d, others[1], start, own);
        var last := Cleanup(d, faults, start, own);
        own := own + [last];
        Regroup(own0, [first], [last]);
      }
    }

    method WriteLetter(d: nat, faults: Faults, ghost start: State, ghost own: seq<Event>) returns (ghost first: Event)
      requires d in place && place[d].Counted? && d in owner && owner[d] in free
      requires Interleaved(lim, start, View(), d, own)
      modifies this
      ensures d in place && (if faults.bury then place[d].Closing? else place[d].Buried?)
      ensures d in owner && owner[d] in free
      ensures first == if faults.bury then BuryRaises(d) else Bury(d)
      ensures Interleaved(lim, start, View(), d, own + [first])
    {
      hide Interleaved, CountFailure, Reset, Schedule, Lose;
      first := if faults.bury then BuryRaises(d) else Bury(d);
      TakeStep(lim, start, View(), d, own, first);
      if faults.bury { LoseLetter(d); } else { SendToDlq(d); }
    }

    method Cleanup(d: nat, faults: Faults, ghost start: State, ghost own: seq<Event>) returns (ghost last: Event)
      requires d in place && place[d].Buried? && d in owner && owner[d] in free
      requires Interleaved(lim, start, View(), d, own)
      modifies this
      ensures d in place && place[d].Closing? && d in owner && owner[d] in free
      ensures last == if faults.clear then ClearRaises(d) else Clear(d)
      ensures Interleaved(lim, start, View(), d, own + [last])
    {
      hide Interleaved, CountFailure, Reset, Schedule, Lose;
      last := if faults.clear then ClearRaises(d) else Clear(d);
      TakeStep(lim, start, View(), d, own, last);
      if faults.clear { KeepCounter(d); } else { ClearCounter(d); }
    }

    /**
     * One handler from the outcome of its run to the end of its finally block. Between any two of
     * its own steps the other handlers do as they like, and any of its writes may raise.
     */
    method Handle(d: nat, ok: bool, faults: Faults, acked: bool, others: seq<seq<Event>>)
      requires d in place && place[d].Running? && d in owner && owner[d] in free && |others| == 4
      modifies this
      ensures exists own ::
        && OutcomeSteps(d, old(place[d].names), ok, faults, own)
        && Interleaved(lim, old(View()), View(), d, own + [if acked then Ack(d) else AckRaises(d)])
      ensures d in place && (if acked then place[d].Acked? else place[d].Stuck?)
    {
      hide Interleaved, CountFailure, Reset, Schedule, Lose, OutcomeSteps;
      ghost var start := View();
      ghost var own: seq<Event> := [];
      NoStep(lim, start, d);
      Await(d, others[0], start, own);
      own := Outcome(d, ok, faults, others[1..3], start);
      Await(d, others[3], start, own);
      TakeStep(lim, start, View(), d, own, if acked then Ack(d) else AckRaises(d));
      if acked {
        Acknowledge(d);
      } else {
        Apply(AckRaises(d));
      }
    }
  }
}

/** Slicing sensor records into time windows: nothing is lost, and without overlap nothing repeats. */
module Windows {
  import opened Prelude

  /** A record and its timestamp column. */
  datatype Record = Record(ts: real, data: string)

  /** The records with a timestamp in a half-open interval, in order. */
  function Select(records: seq<Record>, lo: real, hi: real): (w: seq<Record>)
    ensures forall r :: r in w <==> r in records && lo <= r.ts < hi
  {
    if records == [] then []
    else
      (if lo <= records[0].ts < hi then [records[0]] else []) + Select(records[1..], lo, hi)
  }

  /** Whole milliseconds on the time axis. */
  ghost function Ms(n: int): real {
    n as real
  }

  /** The distance between window starts: at least a millisecond. */
  ghost function StepOf(window: int, overlap: int): (step: int)
    ensures step >= 1
  {
    if window - overlap >= 1 then window - overlap else 1
  }

  lemma MsGrows(a: int, b: int)
    requires a <= b
    ensures Ms(a) <= Ms(b) && Ms(1) == 1.0 && Ms(0) == 0.0
  {
  }

  /** The non-empty windows from `t` on. */
  ghost function WindowsFrom(records: seq<Record>, t: real, end: real, window: real, step: real): seq<seq<Record>>
    requires step >= 1.0
    decreases end - t
  {
    if t > end then []
    else
      var w := Select(records, t, t + window);
      (if w != [] then [w] else []) + WindowsFrom(records, t + step, end, window, step)
  }

  ghost function AllWindows(records: seq<Record>, window: int, overlap: int): seq<seq<Record>> {
    if records == [] then []
    else
      MsGrows(1, StepOf(window, overlap));
      WindowsFrom(records, records[0].ts, records[|records| - 1].ts, Ms(window), Ms(StepOf(window, overlap)))
  }

  ghost predicate Sorted(records: seq<Record>) {
    forall i, j :: 0 <= i < j < |records| ==> records[i].ts <= records[j].ts
  }

  method WindowRecords(records: seq<Record>, window: int, overlap: int) returns (windows: seq<seq<Record>>)
    ensures windows == AllWindows(records, window, overlap)
  {
    windows := [];
    if records == [] { return; }
    var step := window - overlap;
    if step < 1 { step := 1; }
    MsGrows(1, step);
    windows := Scan(records, records[0].ts, records[|records| - 1].ts, window as real, step as real);
  }

  method Scan(records: seq<Record>, start: real, end: real, window: real, step: real)
    returns (windows: seq<seq<Record>>)
    requires step >= 1.0
    ensures windows == WindowsFrom(records, start, end, window, step)
  {
    hide WindowsFrom, Select;
    windows := [];
    var t := start;
    ghost var all := WindowsFrom(records, start, end, window, step);
    while t <= end
      invariant all == windows + WindowsFrom(records, t, end, window, step)
      decreases end - t
    {
      var w := Select(records, t, t + window);
      OneWindow(records, t, end, window, step, windows);
      if w != [] { windows := windows + [w]; }
      t := t + step;
    }
    NoWindow(records, t, end, window, step);
  }

  lemma OneWindow(records: seq<Record>, t: real, end: real, window: real, step: real, before: seq<seq<Record>>)
    requires step >= 1.0 && t <= end
    ensures var w := Select(records, t, t + window);
            before + WindowsFrom(records, t, end, window, step)
              == (if w != [] then before + [w] else before) + WindowsFrom(records, t + step, end, window, step)
  {
  }

  lemma NoWindow(records: seq<Record>, t: real, end: real, window: real, step: real)
    requires step >= 1.0 && t > end
    ensures WindowsFrom(records, t, end, window, step) == []
  {
  }

  // ---- Coverage ----

  /** Some window holds the record. */
  ghost predicate Covered(windows: seq<seq<Record>>, r: Record) {
    exists w :: w in windows && r in w
  }

  /** A step no longer than the window leaves no gap after `t`. */
  lemma {:induction false} NoGaps(records: seq<Record>, t: real, end: real, window: real, step: real, r: Record)
    requires 1.0 <= step <= window && r in records && t <= r.ts <= end
    ensures Covered(WindowsFrom(records, t, end, window, step), r)
    decreases end - t
  {
    hide Covered, WindowsFrom;
    CoveredOnce(records, t, end, window, step, r);
    if r.ts >= t + window { NoGaps(records, t + step, end, window, step, r); }
  }

  /** No window invents a record. */
  lemma {:induction false} NothingInvented(records: seq<Record>, t: real, end: real, window: real, step: real,
                                           r: Record)
    requires step >= 1.0 && Covered(WindowsFrom(records, t, end, window, step), r)
    ensures r in records && t <= r.ts
    decreases end - t
  {
    var w := Select(records, t, t + window);
    if r !in w {
      NothingInvented(records, t + step, end, window, step, r);
    }
  }

  ghost predicate CoversAll(window: int, overlap: int) {
    forall records: seq<Record>, r :: Sorted(records) && r in records ==>
      Covered(AllWindows(records, window, overlap), r)
  }

  lemma SortedCovered(records: seq<Record>, window: int, overlap: int, r: Record)
    requires window >= 1 && overlap >= 0 && Sorted(records) && r in records
    ensures Covered(AllWindows(records, window, overlap), r)
  {
    MsGrows(1, StepOf(window, overlap));
    MsGrows(StepOf(window, overlap), window);
    SortedBounds(records);
    NoGaps(records, records[0].ts, records[|records| - 1].ts, Ms(window), Ms(StepOf(window, overlap)), r);
  }

  /** Two records one window apart fall into the gap that a negative overlap opens. */
  lemma GapExists(window: int, overlap: int)
    requires window < 1 || overlap < 0
    ensures !CoversAll(window, overlap)
  {
    var width := if window < 1 then 0.0 else Ms(window);
    var records := [Record(0.0, "a"), Record(width, "b")];
    var r := records[1];
    assert Sorted(records) && r in records;
    var step := StepOf(window, overlap);
    MsGrows(1, step);
    if window >= 1 { MsGrows(window + 1, step); } else { MsGrows(window, 0); }
    var w := Select(records, 0.0, Ms(window));
    assert WindowsFrom(records, Ms(step), width, Ms(window), Ms(step)) == [];
    assert AllWindows(records, window, overlap) == if w != [] then [w] else [];
    assert r !in w;
  }

  /** Every sorted input is fully covered exactly for a positive window and no negative overlap. */
  lemma CoversAllIff(window: int, overlap: int)
    ensures CoversAll(window, overlap) <==> window >= 1 && overlap >= 0
  {
    if window >= 1 && overlap >= 0 {
      forall records: seq<Record>, r | Sorted(records) && r in records
        ensures Covered(AllWindows(records, window, overlap), r)
      {
        SortedCovered(records, window, overlap, r);
      }
    } else {
      GapExists(window, overlap);
    }
  }

  // ---- Without overlap ----

  ghost function Concat<T>(windows: seq<seq<T>>): seq<T> {
    if windows == [] then [] else windows[0] + Concat(windows[1..])
  }

  lemma SelectNone(records: seq<Record>, lo: real, hi: real)
    requires forall r :: r in records ==> !(lo <= r.ts < hi)
    ensures Select(records, lo, hi) == []
  {
  }

  /** In sorted records an interval is cut off the front of what lies at or after its start. */
  lemma {:induction false} SelectSplits(records: seq<Record>, lo: real, mid: real, hi: real)
    requires Sorted(records) && lo <= mid <= hi
    ensures Select(records, lo, hi) == Select(records, lo, mid) + Select(records, mid, hi)
  {
    if records != [] {
      var r, rest := records[0], records[1..];
      SelectSplits(rest, lo, mid, hi);
      if mid <= r.ts { SelectNone(rest, lo, mid); }
      SelectHead(records, lo, hi);
      SelectHead(records, lo, mid);
      SelectHead(records, mid, hi);
      hide Select;
      HeadSplits(r, lo, mid, hi);
      JoinHeads(Head(r, lo, mid), Select(rest, lo, mid), Head(r, mid, hi), Select(rest, mid, hi));
    }
  }

  lemma HeadSplits(r: Record, lo: real, mid: real, hi: real)
    requires lo <= mid <= hi
    ensures Head(r, lo, hi) == Head(r, lo, mid) + Head(r, mid, hi)
    ensures r.ts < mid ==> Head(r, mid, hi) == []
  {
  }

  lemma JoinHeads(h: seq<Record>, a: seq<Record>, h': seq<Record>, b: seq<Record>)
    requires h' == [] || a == []
    ensures (h + h') + (a + b) == (h + a) + (h' + b)
  {
  }

  function Head(r: Record, lo: real, hi: real): seq<Record> {
    if lo <= r.ts < hi then [r] else []
  }

  lemma SelectHead(records: seq<Record>, lo: real, hi: real)
    requires records != []
    ensures Select(records, lo, hi) == Head(records[0], lo, hi) + Select(records[1..], lo, hi)
  {
  }

  lemma {:induction false} SelectAll(records: seq<Record>, lo: real, hi: real)
    requires forall r :: r in records ==> lo <= r.ts < hi
    ensures Select(records, lo, hi) == records
  {
    if records != [] {
      assert records[0] in records;
      SelectAll(records[1..], lo, hi);
    }
  }

  lemma ConcatCons(w: seq<Record>, rest: seq<seq<Record>>)
    ensures Concat((if w != [] then [w] else []) + rest) == w + Concat(rest)
  {
    if w != [] {
      assert ([w] + rest)[1..] == rest;
    } else {
      assert [] + rest == rest;
      assert w + Concat(rest) == Concat(rest);
    }
  }

  lemma {:induction false} ConcatIsSelect(records: seq<Record>, t: real, end: real, window: real, far: real)
    requires window >= 1.0 && Sorted(records) && end + window < far && t <= far
    requires forall r :: r in records ==> r.ts <= end
    ensures Concat(WindowsFrom(records, t, end, window, window)) == Select(records, t, far)
    decreases end - t
  {
    hide Sorted, Select, WindowsFrom;
    if t > end {
      NoWindow(records, t, end, window, window);
      SelectBeyond(records, t, far, end);
    } else {
      ConcatIsSelect(records, t + window, end, window, far);
      SelectSplits(records, t, t + window, far);
      Unfold(records, t, end, window, window);
      ConcatCons(Select(records, t, t + window), WindowsFrom(records, t + window, end, window, window));
    }
  }

  lemma SelectBeyond(records: seq<Record>, t: real, far: real, end: real)
    requires t > end && forall r :: r in records ==> r.ts <= end
    ensures Select(records, t, far) == []
  {
    SelectNone(records, t, far);
  }

  lemma Unfold(records: seq<Record>, t: real, end: real, window: real, step: real)
    requires step >= 1.0 && t <= end
    ensures var w := Select(records, t, t + window);
            WindowsFrom(records, t, end, window, step)
              == (if w != [] then [w] else []) + WindowsFrom(records, t + step, end, window, step)
  {
  }

  lemma SortedBounds(records: seq<Record>)
    requires Sorted(records) && records != []
    ensures forall r :: r in records ==> records[0].ts <= r.ts <= records[|records| - 1].ts
  {
  }

  /** Zero overlap: the windows, joined, are the records. */
  lemma ZeroOverlapPartitions(records: seq<Record>, window: int)
    requires window >= 1 && Sorted(records)
    ensures Concat(AllWindows(records, window, 0)) == records
  {
    if records != [] {
      var start, end := records[0].ts, records[|records| - 1].ts;
      var far, width := end + Ms(window) + 1.0, Ms(window);
      SortedBounds(records);
      MsGrows(1, window);
      hide Sorted, Ms;
      ConcatIsSelect(records, start, end, width, far);
      SelectAll(records, start, far);
      hide Select, WindowsFrom, Concat;
    }
  }

  // ---- Records in any order ----

  /** The last window start that the scan reaches. */
  ghost function LastStart(t: real, end: real, step: real): (last: real)
    requires step >= 1.0 && t <= end
    ensures t <= last <= end < last + step
    decreases end - t
  {
    if t + step > end then t else LastStart(t + step, end, step)
  }

  /** It is the first start plus a whole number of steps. */
  lemma {:induction false} LastStartIsStart(t: real, end: real, step: real) returns (k: nat)
    requires step >= 1.0 && t <= end
    ensures LastStart(t, end, step) == t + k as real * step
    decreases end - t
  {
    if t + step > end {
      k := 0;
    } else {
      var n := LastStartIsStart(t + step, end, step);
      k := n + 1;
      OneMoreStep(n, step);
    }
  }

  lemma OneMoreStep(n: nat, step: real)
    ensures (n + 1) as real * step == step + n as real * step
  {
    assert (n + 1) as real == n as real + 1.0;
  }

  /** From `t` on, the windows reach exactly from `t` to the end of the last one. */
  lemma {:induction false} ReachIff(records: seq<Record>, t: real, end: real, window: real, step: real, r: Record)
    requires 1.0 <= step <= window && r in records && t <= end
    ensures Covered(WindowsFrom(records, t, end, window, step), r)
       <==> t <= r.ts < LastStart(t, end, step) + window
    decreases end - t
  {
    hide Covered, WindowsFrom, Select;
    var next := t + step;
    var rest := WindowsFrom(records, next, end, window, step);
    CoveredOnce(records, t, end, window, step, r);
    if next > end {
      NoWindow(records, next, end, window, step);
      CoveredByNone(r);
    } else {
      ReachIff(records, next, end, window, step, r);
    }
  }

  lemma CoveredByNone(r: Record)
    ensures !Covered([], r)
  {
  }

  /** A record is in the first window or in a later one. */
  lemma CoveredOnce(records: seq<Record>, t: real, end: real, window: real, step: real, r: Record)
    requires step >= 1.0 && r in records && t <= end
    ensures Covered(WindowsFrom(records, t, end, window, step), r)
       <==> t <= r.ts < t + window || Covered(WindowsFrom(records, t + step, end, window, step), r)
  {
    var w := Select(records, t, t + window);
    var rest := WindowsFrom(records, t + step, end, window, step);
    Unfold(records, t, end, window, step);
    hide WindowsFrom, Select;
    var all := (if w != [] then [w] else []) + rest;
    if r in w { assert w in all; }
    if v :| v in rest && r in v { assert v in all; }
    if v :| v in all && r in v { assert v == w || v in rest; }
  }

  /**
   * Which records are kept when they come in any order, for every configuration the schema allows:
   * none if the first time is after the last, and otherwise those from the first time to the end of
   * the last window that starts no later than the last record's time.
   */
  lemma CoveredIff(records: seq<Record>, window: int, overlap: int, r: Record)
    requires window >= 1 && overlap >= 0 && r in records
    ensures StepOf(window, overlap) >= 1 && Ms(StepOf(window, overlap)) >= 1.0
    ensures var start, end := records[0].ts, records[|records| - 1].ts;
      Covered(AllWindows(records, window, overlap), r)
      <==> start <= end && start <= r.ts < LastStart(start, end, Ms(StepOf(window, overlap))) + Ms(window)
  {
    var start, end, step := records[0].ts, records[|records| - 1].ts, StepOf(window, overlap);
    MsGrows(1, step);
    MsGrows(step, window);
    hide Covered, WindowsFrom, StepOf, Ms;
    if start <= end {
      ReachIff(records, start, end, Ms(window), Ms(step), r);
    } else {
      NoWindow(records, start, end, Ms(window), Ms(step));
      CoveredByNone(r);
    }
  }

  /** Such input exists: a record a window or more after the last start is in no window. */
  lemma UnsortedLosesRecords()
    ensures var records := [Record(0.0, "a"), Record(5000.0, "b"), Record(1.0, "c")];
            !Covered(AllWindows(records, 1000, 0), records[1])
  {
    var records := [Record(0.0, "a"), Record(5000.0, "b"), Record(1.0, "c")];
    assert records[1] in records;
    CoveredIff(records, 1000, 0, records[1]);
    assert LastStart(0.0, 1.0, 1000.0) == 0.0;
  }
}

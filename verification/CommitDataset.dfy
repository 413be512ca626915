/**
 * The two cumulative committers' own loops: the best revision of each sample, the merge with the
 * parent, and the statistics, each against the tree the history model gives the commit.
 */
module CommitDataset {
  import opened Prelude
  import opened Versioning

  /** A row of the revisions table; only the class keys of its boxes matter to a commit. */
  datatype RevRow = RevRow(id: Revision, sample: Sample, no: int, review: Option<string>,
                           classes: seq<Option<string>>)

  type RevTable = revs: map<Revision, RevRow> | forall r :: r in revs ==> revs[r].id == r witness map[]

  datatype Stats =
    | StepStats(samples: nat, skipped: nat, bySplit: map<string, nat>,
                byReview: map<string, nat>, byClass: map<string, nat>)
    | SampleStats(samples: nat, annotated: nat, bySplit: map<string, nat>)
    | DirectStats(samples: nat)

  // ---- Best revision ----

  /** Row `i` has the highest number among the rows of its sample, and is the first that has it. */
  ghost predicate Wins(rows: seq<RevRow>, i: nat) {
    && i < |rows|
    && forall j :: 0 <= j < |rows| && rows[j].sample == rows[i].sample ==>
         rows[j].no < rows[i].no || (rows[j].no == rows[i].no && i <= j)
  }

  ghost predicate Champion(rows: seq<RevRow>, s: Sample, r: RevRow) {
    exists i: nat :: Wins(rows, i) && rows[i] == r && r.sample == s
  }

  method BestRevisions(rows: seq<RevRow>) returns (best: map<Sample, RevRow>)
    ensures forall s :: s in best <==> exists r :: r in rows && r.sample == s
    ensures forall s :: s in best ==> Champion(rows, s, best[s])
  {
    hide Champion;
    best := map[];
    for k := 0 to |rows|
      invariant forall s :: s in best <==> exists r :: r in rows[..k] && r.sample == s
      invariant forall s :: s in best ==> Champion(rows[..k], s, best[s])
    {
      var r := rows[k];
      ghost var before := best;
      assert rows[..k + 1] == rows[..k] + [r];
      if r.sample !in best {
        ChampionAlone(rows[..k], r);
        best := best[r.sample := r];
      } else if r.no > best[r.sample].no {
        ChampionBeaten(rows[..k], best[r.sample], r);
        best := best[r.sample := r];
      }
      forall s | s in before && best[s] == before[s] && (s == r.sample ==> r.no <= before[s].no)
        ensures Champion(rows[..k + 1], s, best[s])
      {
        ChampionStays(rows[..k], s, before[s], r);
      }
    }
    assert rows[..|rows|] == rows;
  }

  lemma ChampionAlone(rows: seq<RevRow>, r: RevRow)
    requires forall q :: q in rows ==> q.sample != r.sample
    ensures Champion(rows + [r], r.sample, r)
  {
    assert Wins(rows + [r], |rows|);
  }

  lemma ChampionBeaten(rows: seq<RevRow>, old_: RevRow, r: RevRow)
    requires Champion(rows, r.sample, old_) && r.no > old_.no
    ensures Champion(rows + [r], r.sample, r)
  {
    assert Wins(rows + [r], |rows|);
  }

  lemma ChampionStays(rows: seq<RevRow>, s: Sample, old_: RevRow, r: RevRow)
    requires Champion(rows, s, old_) && (s == r.sample ==> r.no <= old_.no)
    ensures Champion(rows + [r], s, old_)
  {
    var i: nat :| Wins(rows, i) && rows[i] == old_;
    assert Wins(rows + [r], i);
  }

  // ---- The new commit's tree ----

  /** The rows of one commit in the samples table, where (commit, sample) is the key. */
  ghost predicate RowsOf(rows: seq<(Sample, Entry)>, tree: Tree) {
    && (forall i, j :: 0 <= i < j < |rows| ==> rows[i].0 != rows[j].0)
    && (forall row :: row in rows ==> row.0 in tree && tree[row.0] == row.1)
    && (forall s :: s in tree ==> (s, tree[s]) in rows)
  }

  /** The tree the rows before `k` carry over. */
  ghost predicate CarriedOver(mode: Mode, rows: seq<(Sample, Entry)>, k: nat, merged: Tree)
    requires k <= |rows|
  {
    && (forall i :: 0 <= i < k && (mode != Step || rows[i].1.rev.Some?) ==>
          rows[i].0 in merged && merged[rows[i].0] == rows[i].1)
    && (forall s :: s in merged ==>
          exists i :: 0 <= i < k && rows[i].0 == s && (mode != Step || rows[i].1.rev.Some?))
  }

  /** Both committers: carry the parent's rows, then let the batch win. */
  method MergeBatch(mode: Mode, rows: seq<(Sample, Entry)>, ghost parent: Tree, committed: seq<Sample>, batch: Tree)
    returns (merged: Tree)
    requires mode == Step || mode == FromSamples
    requires RowsOf(rows, parent) && forall s :: s in committed <==> s in batch
    ensures merged == Merge(mode, parent, batch)
  {
    merged := map[];
    for k := 0 to |rows|
      invariant CarriedOver(mode, rows, k, merged)
    {
      if mode != Step || rows[k].1.rev.Some? {
        merged := merged[rows[k].0 := rows[k].1];
      }
    }
    CarriedIsMerge(mode, rows, parent, merged);
    merged := Overlay(merged, committed, batch);
  }

  /** The batch wins on overlap and adds what only it has. */
  method Overlay(base: Tree, committed: seq<Sample>, batch: Tree) returns (merged: Tree)
    requires forall s :: s in committed <==> s in batch
    ensures merged == base + batch
  {
    merged := base;
    for k := 0 to |committed|
      invariant forall s :: s in merged <==> s in base || s in committed[..k]
      invariant forall s :: s in merged ==> merged[s] == if s in committed[..k] then batch[s] else base[s]
    {
      merged := merged[committed[k] := batch[committed[k]]];
      assert committed[..k + 1] == committed[..k] + [committed[k]];
    }
    assert committed[..|committed|] == committed;
  }

  lemma CarriedIsMerge(mode: Mode, rows: seq<(Sample, Entry)>, parent: Tree, merged: Tree)
    requires mode == Step || mode == FromSamples
    requires RowsOf(rows, parent) && CarriedOver(mode, rows, |rows|, merged)
    ensures forall batch :: Merge(mode, parent, batch) == merged + batch
  {
    var carried := Merge(mode, parent, map[]);
    forall s | s in carried ensures s in merged && merged[s] == carried[s] {
      assert (s, parent[s]) in rows;
    }
    forall s | s in merged ensures s in carried {
      var i :| 0 <= i < |rows| && rows[i].0 == s && (mode != Step || rows[i].1.rev.Some?);
      assert rows[i] in rows;
    }
    hide RowsOf, CarriedOver;
    MergeIsOverlay(mode, parent);
  }

  lemma MergeIsOverlay(mode: Mode, parent: Tree)
    requires mode == Step || mode == FromSamples
    ensures forall batch :: Merge(mode, parent, batch) == Merge(mode, parent, map[]) + batch
  {
  }

  // ---- Counters ----

  ghost function Having<T>(items: set<T>, key: T -> Option<string>, x: string): set<T> {
    set t | t in items && key(t) == Some(x)
  }

  /** The counter holds, for each key that occurs, how many items have it. */
  ghost predicate Tally<T>(counter: map<string, nat>, items: set<T>, key: T -> Option<string>) {
    forall x ::
      && (x in counter <==> Having(items, key, x) != {})
      && (x in counter ==> counter[x] == |Having(items, key, x)|)
  }

  function Bump(counter: map<string, nat>, key: Option<string>): map<string, nat> {
    if key.None? then counter
    else counter[key.value := 1 + if key.value in counter then counter[key.value] else 0]
  }

  lemma HavingOne<T>(items: set<T>, key: T -> Option<string>, t: T, x: string)
    requires t !in items
    ensures Having(items + {t}, key, x) == Having(items, key, x) + if key(t) == Some(x) then {t} else {}
    ensures |Having(items + {t}, key, x)| == |Having(items, key, x)| + if key(t) == Some(x) then 1 else 0
  {
  }

  lemma TallyOne<T>(counter: map<string, nat>, items: set<T>, key: T -> Option<string>, t: T)
    requires Tally(counter, items, key) && t !in items
    ensures Tally(Bump(counter, key(t)), items + {t}, key)
  {
    var counter' := Bump(counter, key(t));
    hide Having;
    forall x
      ensures x in counter' <==> Having(items + {t}, key, x) != {}
      ensures x in counter' ==> counter'[x] == |Having(items + {t}, key, x)|
    {
      HavingOne(items, key, t, x);
    }
  }

  lemma TallyNone<T>(key: T -> Option<string>)
    ensures Tally(map[], {}, key)
  {
    forall x ensures Having({}, key, x) == {} {}
  }

  ghost function SplitKey(tree: Tree): Sample -> Option<string> {
    s => if s in tree then Some(tree[s].split) else None
  }

  ghost function MetaOf(revs: map<Revision, RevRow>, e: Entry): Option<RevRow> {
    if e.rev.Some? && e.rev.value in revs then Some(revs[e.rev.value]) else None
  }

  ghost function ReviewIn(revs: map<Revision, RevRow>, e: Entry): Option<string> {
    var row := MetaOf(revs, e);
    if row.None? then None else Some(if row.value.review.Some? then row.value.review.value else "unknown")
  }

  ghost function ReviewKey(revs: map<Revision, RevRow>, tree: Tree): Sample -> Option<string> {
    s => if s in tree then ReviewIn(revs, tree[s]) else None
  }

  ghost function ClassesOf(revs: map<Revision, RevRow>, tree: Tree, s: Sample): seq<Option<string>> {
    if s in tree && MetaOf(revs, tree[s]).Some? then MetaOf(revs, tree[s]).value.classes else []
  }

  /** The boxes of some samples: a sample and a position in its pinned payload. */
  ghost function Boxes(revs: map<Revision, RevRow>, tree: Tree, samples: set<Sample>): set<(Sample, int)> {
    set s, i | s in samples && 0 <= i < |ClassesOf(revs, tree, s)| :: (s, i)
  }

  ghost function ClassKey(revs: map<Revision, RevRow>, tree: Tree): ((Sample, int)) -> Option<string> {
    (b: (Sample, int)) =>
      if 0 <= b.1 < |ClassesOf(revs, tree, b.0)| then ClassesOf(revs, tree, b.0)[b.1] else None
  }

  /** The samples of the tree that have an annotation. */
  ghost function Pinned(tree: Tree, samples: set<Sample>): set<Sample> {
    set s | s in samples && s in tree && tree[s].rev.Some?
  }

  // ---- What the numbers mean ----

  ghost function WithSplit(tree: Tree, x: string): set<Sample> {
    set s | s in tree && tree[s].split == x
  }

  /** The sample's pinned revision is in the table. */
  ghost predicate Known(revs: map<Revision, RevRow>, tree: Tree, s: Sample) {
    s in tree && tree[s].rev.Some? && tree[s].rev.value in revs
  }

  /** The samples whose pinned revision has this review status, or none where `x` stands for that. */
  ghost function WithReview(revs: map<Revision, RevRow>, tree: Tree, x: string): set<Sample> {
    set s | s in tree && Known(revs, tree, s)
            && (revs[tree[s].rev.value].review == Some(x) || (revs[tree[s].rev.value].review == None && x == "unknown"))
  }

  /** The boxes of class `x` in the pinned revisions. */
  ghost function WithClass(revs: map<Revision, RevRow>, tree: Tree, x: string): set<(Sample, int)> {
    set s, i | s in tree && Known(revs, tree, s) && 0 <= i < |revs[tree[s].rev.value].classes|
               && revs[tree[s].rev.value].classes[i] == Some(x) :: (s, i)
  }

  /** The counter has an entry for each key that occurs, the number of things that have it. */
  ghost predicate Counts<T(!new)>(counter: map<string, nat>, having: string -> set<T>) {
    forall x :: (x in counter <==> having(x) != {}) && (x in counter ==> counter[x] == |having(x)|)
  }

  /** What statistics claim about a tree. */
  ghost predicate Recount(revs: map<Revision, RevRow>, tree: Tree, stats: Stats) {
    match stats
    case StepStats(samples, _, bySplit, byReview, byClass) =>
      && samples == |tree|
      && Counts(bySplit, x => WithSplit(tree, x))
      && Counts(byReview, x => WithReview(revs, tree, x))
      && Counts(byClass, x => WithClass(revs, tree, x))
    case SampleStats(samples, annotated, bySplit) =>
      && samples == |tree|
      && annotated == |set s | s in tree && tree[s].rev.Some?|
      && Counts(bySplit, x => WithSplit(tree, x))
    case DirectStats(samples) => samples == |tree|
  }

  /** A finished tally is a count. */
  lemma TallyCounts<T(!new)>(counter: map<string, nat>, items: set<T>, key: T -> Option<string>,
                             having: string -> set<T>)
    requires Tally(counter, items, key) && forall x :: Having(items, key, x) == having(x)
    ensures Counts(counter, having)
  {
  }

  lemma SplitsCounted(counter: map<string, nat>, tree: Tree)
    requires Tally(counter, tree.Keys, SplitKey(tree))
    ensures Counts(counter, x => WithSplit(tree, x))
  {
    hide Tally, Counts;
    TallyCounts(counter, tree.Keys, SplitKey(tree), x => WithSplit(tree, x));
  }

  lemma ReviewsCounted(counter: map<string, nat>, revs: map<Revision, RevRow>, tree: Tree)
    requires Tally(counter, tree.Keys, ReviewKey(revs, tree))
    ensures Counts(counter, x => WithReview(revs, tree, x))
  {
    hide Tally, Counts;
    TallyCounts(counter, tree.Keys, ReviewKey(revs, tree), x => WithReview(revs, tree, x));
  }

  lemma ClassesCounted(counter: map<string, nat>, revs: map<Revision, RevRow>, tree: Tree)
    requires Tally(counter, Boxes(revs, tree, tree.Keys), ClassKey(revs, tree))
    ensures Counts(counter, x => WithClass(revs, tree, x))
  {
    hide Tally, Counts;
    forall x ensures Having(Boxes(revs, tree, tree.Keys), ClassKey(revs, tree), x) == WithClass(revs, tree, x) {
      assert forall s :: Known(revs, tree, s) ==> ClassesOf(revs, tree, s) == revs[tree[s].rev.value].classes;
    }
    TallyCounts(counter, Boxes(revs, tree, tree.Keys), ClassKey(revs, tree), x => WithClass(revs, tree, x));
  }

  /** The class keys of one sample's payload. */
  method CountClasses(ghost revs: map<Revision, RevRow>, ghost tree: Tree, ghost done: set<Sample>, ghost s: Sample,
                      classes: seq<Option<string>>, byClass0: map<string, nat>)
    returns (byClass: map<string, nat>)
    requires classes == ClassesOf(revs, tree, s)
    requires s !in done && Tally(byClass0, Boxes(revs, tree, done), ClassKey(revs, tree))
    ensures Tally(byClass, Boxes(revs, tree, done + {s}), ClassKey(revs, tree))
  {
    byClass := byClass0;
    ghost var counted := Boxes(revs, tree, done);
    for i := 0 to |classes|
      invariant counted == Boxes(revs, tree, done) + set k | 0 <= k < i :: (s, k)
      invariant Tally(byClass, counted, ClassKey(revs, tree))
    {
      TallyOne(byClass, counted, ClassKey(revs, tree), (s, i));
      byClass := Bump(byClass, classes[i]);
      counted := counted + {(s, i)};
    }
    assert counted == Boxes(revs, tree, done + {s});
  }

  lemma CountSplit(counter: map<string, nat>, done: set<Sample>, tree: Tree, s: Sample)
    requires Tally(counter, done, SplitKey(tree)) && s in tree && s !in done
    ensures Tally(Bump(counter, Some(tree[s].split)), done + {s}, SplitKey(tree))
  {
    hide Tally, Having, Bump;
    assert SplitKey(tree)(s) == Some(tree[s].split);
    TallyOne(counter, done, SplitKey(tree), s);
  }

  lemma CountReview(counter: map<string, nat>, done: set<Sample>, revs: map<Revision, RevRow>, tree: Tree, s: Sample)
    requires Tally(counter, done, ReviewKey(revs, tree)) && s in tree && s !in done
    ensures Tally(Bump(counter, ReviewIn(revs, tree[s])), done + {s}, ReviewKey(revs, tree))
  {
    hide Tally, Having, Bump;
    assert ReviewKey(revs, tree)(s) == ReviewIn(revs, tree[s]);
    TallyOne(counter, done, ReviewKey(revs, tree), s);
  }

  /** The three counters agree with the samples counted so far. */
  ghost predicate Counted(revs: map<Revision, RevRow>, tree: Tree, done: set<Sample>, bySplit: map<string, nat>,
                          byReview: map<string, nat>, byClass: map<string, nat>) {
    && Tally(bySplit, done, SplitKey(tree))
    && Tally(byReview, done, ReviewKey(revs, tree))
    && Tally(byClass, Boxes(revs, tree, done), ClassKey(revs, tree))
  }

  lemma CountedNone(revs: map<Revision, RevRow>, tree: Tree)
    ensures Counted(revs, tree, {}, map[], map[], map[])
  {
    NoBoxes(revs, tree);
    TallyNone(SplitKey(tree));
    TallyNone(ReviewKey(revs, tree));
    TallyNone(ClassKey(revs, tree));
  }

  /** The step's statistics: one pass over the merged set, three counters. */
  method StepStatsOf(revs: map<Revision, RevRow>, tree: Tree, skipped: nat) returns (stats: Stats)
    ensures stats.StepStats? && stats.skipped == skipped && Recount(revs, tree, stats)
  {
    var bySplit, byReview, byClass := map[], map[], map[];
    var todo := tree.Keys;
    ghost var done: set<Sample> := {};
    CountedNone(revs, tree);
    hide Recount, Counted, Tally;
    while todo != {}
      invariant done + todo == tree.Keys && done !! todo
      invariant Counted(revs, tree, done, bySplit, byReview, byClass)
    {
      var s :| s in todo;
      bySplit, byReview, byClass := CountSample(revs, tree, done, s, bySplit, byReview, byClass);
      todo, done := todo - {s}, done + {s};
    }
    assert done == tree.Keys;
    stats := StepStats(|tree|, skipped, bySplit, byReview, byClass);
    AllCounted(revs, tree, stats);
  }

  lemma AllCounted(revs: map<Revision, RevRow>, tree: Tree, stats: Stats)
    requires stats.StepStats? && stats.samples == |tree|
    requires Counted(revs, tree, tree.Keys, stats.bySplit, stats.byReview, stats.byClass)
    ensures Recount(revs, tree, stats)
  {
    hide Tally, Counts;
    SplitsCounted(stats.bySplit, tree);
    ReviewsCounted(stats.byReview, revs, tree);
    ClassesCounted(stats.byClass, revs, tree);
  }

  method CountSample(revs: map<Revision, RevRow>, tree: Tree, ghost done: set<Sample>, s: Sample,
                     bySplit0: map<string, nat>, byReview0: map<string, nat>, byClass0: map<string, nat>)
    returns (bySplit: map<string, nat>, byReview: map<string, nat>, byClass: map<string, nat>)
    requires s in tree && s !in done && Counted(revs, tree, done, bySplit0, byReview0, byClass0)
    ensures Counted(revs, tree, done + {s}, bySplit, byReview, byClass)
  {
    hide Tally, Boxes, SplitKey, ReviewKey, ClassKey, Bump;
    CountSplit(bySplit0, done, tree, s);
    bySplit := Bump(bySplit0, Some(tree[s].split));
    CountReview(byReview0, done, revs, tree, s);
    var review: Option<string>, classes := None, [];
    if tree[s].rev.Some? && tree[s].rev.value in revs {
      var row := revs[tree[s].rev.value];
      review, classes := Some(if row.review.Some? then row.review.value else "unknown"), row.classes;
    }
    byReview := Bump(byReview0, review);
    byClass := CountClasses(revs, tree, done, s, classes, byClass0);
  }

  lemma NoBoxes(revs: map<Revision, RevRow>, tree: Tree)
    ensures Boxes(revs, tree, {}) == {}
  {
  }

  /** The router's statistics over its merged set. */
  method SampleStatsOf(tree: Tree) returns (stats: Stats)
    ensures stats.SampleStats? && Recount(map[], tree, stats)
  {
    var bySplit, annotated := map[], 0;
    var todo := tree.Keys;
    ghost var done: set<Sample> := {};
    hide Tally, Having, Bump, SplitKey, Pinned;
    TallyNone(SplitKey(tree));
    NonePinned(tree);
    while todo != {}
      invariant done + todo == tree.Keys && done !! todo
      invariant Tally(bySplit, done, SplitKey(tree)) && annotated == |Pinned(tree, done)|
    {
      var s :| s in todo;
      CountSplit(bySplit, done, tree, s);
      bySplit := Bump(bySplit, Some(tree[s].split));
      OneMorePinned(tree, done, s);
      if tree[s].rev.Some? { annotated := annotated + 1; }
      todo, done := todo - {s}, done + {s};
    }
    assert done == tree.Keys;
    SplitsCounted(bySplit, tree);
    hide Counts;
    AllPinned(tree);
    stats := SampleStats(|tree|, annotated, bySplit);
  }

  lemma NonePinned(tree: Tree)
    ensures Pinned(tree, {}) == {}
  {
  }

  lemma AllPinned(tree: Tree)
    ensures Pinned(tree, tree.Keys) == set s | s in tree && tree[s].rev.Some?
  {
  }

  lemma OneMorePinned(tree: Tree, done: set<Sample>, s: Sample)
    requires s in tree && s !in done
    ensures |Pinned(tree, done + {s})| == |Pinned(tree, done)| + if tree[s].rev.Some? then 1 else 0
  {
    assert Pinned(tree, done + {s}) == Pinned(tree, done) + if tree[s].rev.Some? then {s} else {};
  }

  // ---- Revision metadata ----

  /** The cache answers for the pinned revisions exactly as the table does. */
  ghost predicate MetaLoaded(revs: map<Revision, RevRow>, tree: Tree, meta: map<Revision, RevRow>) {
    forall s :: s in tree ==> MetaOf(meta, tree[s]) == MetaOf(revs, tree[s])
  }

  /** Start from the batch's own rows and query the table only for revisions carried over. */
  method LoadMeta(revs: RevTable, tree: Tree, committed: seq<Sample>, best: map<Sample, RevRow>)
    returns (meta: map<Revision, RevRow>)
    requires forall s :: s in committed ==>
      s in best && best[s].id in revs && revs[best[s].id] == best[s]
    ensures MetaLoaded(revs, tree, meta)
  {
    var own := map s | s in committed :: best[s].id := best[s];
    var missing := set s | s in tree && tree[s].rev.Some? && tree[s].rev.value !in own :: tree[s].rev.value;
    var extra := Fetch(revs, missing);
    meta := own + extra;
    assert forall s :: s in tree && tree[s].rev.Some? && tree[s].rev.value !in own ==> tree[s].rev.value in missing;
    CacheAnswers(revs, tree, own, extra);
  }

  lemma CacheAnswers(revs: map<Revision, RevRow>, tree: Tree, own: map<Revision, RevRow>, extra: map<Revision, RevRow>)
    requires forall r :: r in own ==> r in revs && own[r] == revs[r]
    requires forall r :: r in extra ==> r in revs && extra[r] == revs[r]
    requires forall s :: s in tree && tree[s].rev.Some? && tree[s].rev.value in revs ==>
      tree[s].rev.value in own || tree[s].rev.value in extra
    ensures MetaLoaded(revs, tree, own + extra)
  {
  }

  method Fetch(revs: RevTable, ids: set<Revision>) returns (found: map<Revision, RevRow>)
    ensures forall r :: r in found <==> r in ids && r in revs
    ensures forall r :: r in found ==> found[r] == revs[r]
  {
    found := map[];
    var todo := ids;
    while todo != {}
      invariant todo <= ids
      invariant forall r :: r in found <==> r in ids && r in revs && r !in todo
      invariant forall r :: r in found ==> found[r] == revs[r]
    {
      var r :| r in todo;
      if r in revs { found := found[r := revs[r]]; }
      todo := todo - {r};
    }
  }

  /** Counting with the cache is counting with the table. */
  lemma RecountAgrees(revs: map<Revision, RevRow>, tree: Tree, meta: map<Revision, RevRow>, stats: Stats)
    requires MetaLoaded(revs, tree, meta) && stats.StepStats? && Recount(meta, tree, stats)
    ensures Recount(revs, tree, stats)
  {
    forall s ensures Known(meta, tree, s) <==> Known(revs, tree, s) {
      assert s in tree ==> MetaOf(meta, tree[s]) == MetaOf(revs, tree[s]);
    }
    forall s | Known(revs, tree, s) ensures meta[tree[s].rev.value] == revs[tree[s].rev.value] {
      assert MetaOf(meta, tree[s]) == MetaOf(revs, tree[s]);
    }
    hide MetaLoaded, MetaOf;
    forall x ensures WithReview(meta, tree, x) == WithReview(revs, tree, x) {}
    forall x ensures WithClass(meta, tree, x) == WithClass(revs, tree, x) {}
    SameCounts(stats.byReview, x => WithReview(meta, tree, x), x => WithReview(revs, tree, x));
    SameCounts(stats.byClass, x => WithClass(meta, tree, x), x => WithClass(revs, tree, x));
  }

  lemma SameCounts<T(!new)>(counter: map<string, nat>, having: string -> set<T>, having': string -> set<T>)
    requires Counts(counter, having) && forall x :: having(x) == having'(x)
    ensures Counts(counter, having')
  {
  }

  // ---- The plain endpoint's count ----

  /** Samples paired with revisions as far as the shorter list goes. */
  ghost function ZipBatch(samples: seq<Sample>, revisions: seq<Revision>, split: nat -> string): Tree {
    map i | 0 <= i < |samples| && i < |revisions| && samples[i] !in samples[..i]
      :: samples[i] := Entry(Some(revisions[i]), split(i))
  }

  /** How far the two lists are paired. */
  ghost function Paired(samples: seq<Sample>, revisions: seq<Revision>): nat {
    if |samples| <= |revisions| then |samples| else |revisions|
  }

  lemma ZipKeys(samples: seq<Sample>, revisions: seq<Revision>, split: nat -> string)
    requires NoDup(samples[..Paired(samples, revisions)])
    ensures ZipBatch(samples, revisions, split).Keys == Elements(samples[..Paired(samples, revisions)])
  {
    var tree, front := ZipBatch(samples, revisions, split), samples[..Paired(samples, revisions)];
    forall s | s in front ensures s in tree {
      var i :| 0 <= i < |front| && front[i] == s;
      assert samples[..i] == front[..i];
      assert samples[i] !in samples[..i];
    }
  }

  lemma PairedOnce(samples: seq<Sample>, revisions: seq<Revision>, i: nat)
    requires NoDup(samples[..Paired(samples, revisions)]) && i < Paired(samples, revisions)
    ensures samples[i] !in samples[..i]
  {
    var front := samples[..Paired(samples, revisions)];
    assert forall j :: 0 <= j < i ==> front[j] == samples[j] && front[j] != front[i];
  }

  /** The first `count` samples are stored, each with the revision at its own place. */
  ghost predicate PairedUpTo(samples: seq<Sample>, revisions: seq<Revision>, count: nat, split: nat -> string,
                             batch: Tree)
    requires count <= Paired(samples, revisions)
  {
    && (forall s :: s in batch <==> s in samples[..count])
    && forall j: nat :: j < count ==> samples[j] in batch && batch[samples[j]] == Entry(Some(revisions[j]), split(j))
  }

  lemma NoPairs(samples: seq<Sample>, revisions: seq<Revision>, split: nat -> string)
    ensures PairedUpTo(samples, revisions, 0, split, map[])
  {
  }

  lemma OnePair(samples: seq<Sample>, revisions: seq<Revision>, i: nat, split: nat -> string, batch: Tree)
    requires i < Paired(samples, revisions) && samples[i] !in samples[..i]
    requires PairedUpTo(samples, revisions, i, split, batch)
    ensures PairedUpTo(samples, revisions, i + 1, split, batch[samples[i] := Entry(Some(revisions[i]), split(i))])
  {
    assert samples[..i + 1] == samples[..i] + [samples[i]];
    forall j: nat | j < i ensures samples[j] != samples[i] { assert samples[j] in samples[..i]; }
  }

  /** What is stored pair by pair is the whole batch. */
  lemma PairsAreZip(samples: seq<Sample>, revisions: seq<Revision>, split: nat -> string, batch: Tree)
    requires NoDup(samples[..Paired(samples, revisions)])
    requires PairedUpTo(samples, revisions, Paired(samples, revisions), split, batch)
    ensures batch == ZipBatch(samples, revisions, split)
  {
    var front := samples[..Paired(samples, revisions)];
    ZipKeys(samples, revisions, split);
    forall s | s in batch ensures batch[s] == ZipBatch(samples, revisions, split)[s] {
      var i: nat :| i < |front| && front[i] == s;
      ZipAt(samples, revisions, split, i);
    }
    hide ZipBatch, NoDup, PairedUpTo;
    assert batch.Keys == Elements(front);
  }

  lemma ZipAt(samples: seq<Sample>, revisions: seq<Revision>, split: nat -> string, i: nat)
    requires NoDup(samples[..Paired(samples, revisions)]) && i < Paired(samples, revisions)
    ensures samples[i] in ZipBatch(samples, revisions, split)
    ensures ZipBatch(samples, revisions, split)[samples[i]] == Entry(Some(revisions[i]), split(i))
  {
    PairedOnce(samples, revisions, i);
    forall j | 0 <= j < |samples| && j < |revisions| && samples[j] !in samples[..j] && samples[j] == samples[i]
      ensures j == i
    {
      PairedOnce(samples, revisions, j);
    }
  }

  /**
   * The plain endpoint stores the length of the request as its sample count. That is the number of
   * rows it writes exactly when no sample lacks a revision in the other list. Rows of one commit
   * have different samples; what the request holds beyond the pairs is arbitrary.
   */
  lemma DirectCountIff(samples: seq<Sample>, revisions: seq<Revision>, split: nat -> string)
    requires NoDup(samples[..Paired(samples, revisions)])
    ensures Recount(map[], ZipBatch(samples, revisions, split), DirectStats(|samples|))
       <==> |samples| <= |revisions|
  {
    ZipKeys(samples, revisions, split);
    NoDupCardinality(samples[..Paired(samples, revisions)]);
    hide ZipBatch, Elements, NoDup;
    assert |ZipBatch(samples, revisions, split)| == |ZipBatch(samples, revisions, split).Keys|;
  }
}

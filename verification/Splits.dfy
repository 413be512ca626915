/**
 * Split assignment: hashing a sample or its source into a bucket, cutting a list at two indices,
 * and what grouping by source guarantees over a whole branch history.
 */
module Splits {
  import opened Prelude
  import opened Versioning
  import opened CommitDataset

  type Source = string

  /** A hash into the unit interval. */
  ghost predicate Unit(hash: string -> real) {
    forall x {:trigger hash(x)} :: 0.0 <= hash(x) < 1.0
  }

  function Bucket(u: real, train: real, val: real): string {
    if u < train then "train" else if u < train + val then "val" else "test"
  }

  /** What the three ranges of the unit interval are for. */
  ghost predicate InRange(u: real, train: real, val: real, split: string) {
    || (split == "train" && u < train)
    || (split == "val" && train <= u < train + val)
    || (split == "test" && train <= u && train + val <= u)
  }

  /** Every sample goes where its source hashes to. */
  function BySourceGroup(ids: seq<Sample>, sourceOf: map<Sample, Source>, hash: string -> real,
                         train: real, val: real): (splits: map<Sample, string>)
    requires forall s :: s in ids ==> s in sourceOf
    ensures forall s :: s in splits <==> s in ids
    ensures forall s :: s in splits ==> InRange(hash(sourceOf[s]), train, val, splits[s])
    ensures forall s, t :: s in ids && t in ids && sourceOf[s] == sourceOf[t] ==>
              s in splits && t in splits && splits[s] == splits[t]
  {
    map s | s in ids :: Bucket(hash(sourceOf[s]), train, val)
  }

  /** Every sample goes where it hashes to itself. */
  function RandomSeeded(ids: seq<Sample>, hash: string -> real, train: real, val: real)
    : (splits: map<Sample, string>)
    ensures forall s :: s in splits <==> s in ids
    ensures forall s :: s in splits ==> InRange(hash(s), train, val, splits[s])
  {
    map s | s in ids :: Bucket(hash(s), train, val)
  }

  /** Each hash has one bucket, the one in whose range it lies. */
  lemma BucketIff(u: real, train: real, val: real, split: string)
    ensures Bucket(u, train, val) == split <==> InRange(u, train, val, split)
  {
    assert "train"[0] != "val"[0] && "test"[1] != "train"[1] && "test"[0] != "val"[0];
  }

  /** Ratios that leave nothing over put nothing in the test split; others leave room for it. */
  lemma TestIff(hash: string -> real, train: real, val: real)
    requires Unit(hash) && train >= 0.0 && val >= 0.0
    ensures train + val >= 1.0 ==> forall x :: Bucket(hash(x), train, val) != "test"
    ensures forall u :: train <= u && train + val <= u <==> Bucket(u, train, val) == "test"
  {
    forall x ensures train + val >= 1.0 ==> Bucket(hash(x), train, val) != "test" {
      assert 0.0 <= hash(x) < 1.0;
    }
  }

  // ---- Grouping over a history ----

  /** The batch of a step that grouped by source with these ratios. */
  ghost predicate Grouped(tree: Tree, sourceOf: map<Sample, Source>, hash: string -> real, train: real, val: real) {
    forall s :: s in tree ==> s in sourceOf && tree[s].split == Bucket(hash(sourceOf[s]), train, val)
  }

  /** Two samples of one source sit in different splits. */
  ghost predicate Straddles(tree: Tree, sourceOf: map<Sample, Source>, src: Source) {
    exists s, t ::
      && s in tree && t in tree && s in sourceOf && t in sourceOf
      && sourceOf[s] == src && sourceOf[t] == src
      && tree[s].split != tree[t].split
  }

  lemma {:induction false} FoldGrouped(commits: map<nat, Commit>, l: seq<nat>, sourceOf: map<Sample, Source>,
                                       hash: string -> real, train: real, val: real)
    requires forall i :: 0 <= i < |l| ==> l[i] in commits
    requires forall i :: 0 <= i < |l| ==> Grouped(commits[l[i]].batch, sourceOf, hash, train, val)
    ensures Grouped(FoldBatches(commits, l), sourceOf, hash, train, val)
    decreases |l|
  {
    if l != [] {
      assert Grouped(commits[l[|l| - 1]].batch, sourceOf, hash, train, val);
      FoldGrouped(commits, l[..|l| - 1], sourceOf, hash, train, val);
    }
  }

  /**
   * No leakage over history: if every commit a head descends from was grouped by source with the
   * same seed and ratios, no source straddles two splits in the head's tree, and nothing is in the
   * test split when the ratios leave nothing over.
   */
  lemma NoSourceStraddles(evs: seq<Event>, r: Repo, c: nat, sourceOf: map<Sample, Source>,
                          hash: string -> real, train: real, val: real)
    requires Run(evs, r) && c in r.commits && Unit(hash) && train >= 0.0 && val >= 0.0
    requires forall d :: d in r.commits && CommitAncestor(r.commits, d, c) ==>
               Grouped(r.commits[d].batch, sourceOf, hash, train, val)
    ensures forall src :: !Straddles(r.commits[c].tree, sourceOf, src)
    ensures train + val >= 1.0 ==>
      forall s :: s in r.commits[c].tree ==> r.commits[c].tree[s].split != "test"
  {
    CumulativeTree(evs, r, c);
    var l :| RootChain(r.commits, l) && l[|l| - 1] == c && r.commits[c].tree == FoldBatches(r.commits, l);
    hide Run, CommitAncestor;
    forall i | 0 <= i < |l| ensures Grouped(r.commits[l[i]].batch, sourceOf, hash, train, val) {
      LinkedTail(r.commits, l, i);
    }
    FoldGrouped(r.commits, l, sourceOf, hash, train, val);
    TestIff(hash, train, val);
  }

  datatype Ratios = Ratios(train: real, val: real)

  function BucketOf(u: real, ratios: Ratios): string {
    Bucket(u, ratios.train, ratios.val)
  }

  /** Every commit of the chain grouped its batch by source, each with ratios of its own. */
  ghost predicate GroupedChain(commits: map<nat, Commit>, l: seq<nat>, sourceOf: map<Sample, Source>,
                               hash: string -> real, ratios: map<nat, Ratios>)
  {
    forall i :: 0 <= i < |l| ==>
      && l[i] in commits && l[i] in ratios
      && Grouped(commits[l[i]].batch, sourceOf, hash, ratios[l[i]].train, ratios[l[i]].val)
  }

  /** Commit `k` of the chain named the sample of source `src` last, and its pin is still there. */
  ghost predicate Remains(commits: map<nat, Commit>, l: seq<nat>, sourceOf: map<Sample, Source>, src: Source,
                          s: Sample, k: nat)
    requires forall i :: 0 <= i < |l| ==> l[i] in commits
  {
    LastNamed(commits, l, s, k) && Survives(commits, l, s, k) && s in sourceOf && sourceOf[s] == src
  }

  lemma {:induction false} NamedOrNot(commits: map<nat, Commit>, l: seq<nat>, s: Sample)
    requires forall i :: 0 <= i < |l| ==> l[i] in commits
    ensures (exists k: nat :: LastNamed(commits, l, s, k)) || forall i :: 0 <= i < |l| ==> s !in commits[l[i]].batch
    decreases |l|
  {
    if l != [] {
      var n := |l| - 1;
      var front := l[..n];
      assert forall i :: 0 <= i < n ==> front[i] == l[i];
      if s in commits[l[n]].batch {
        assert LastNamed(commits, l, s, n);
      } else {
        NamedOrNot(commits, front, s);
        if k: nat :| LastNamed(commits, front, s, k) { assert LastNamed(commits, l, s, k); }
      }
    }
  }

  /** A sample is in the tree exactly if some commit's pin of it remains, in that commit's bucket. */
  lemma InTreeIffRemains(commits: map<nat, Commit>, l: seq<nat>, sourceOf: map<Sample, Source>,
                         hash: string -> real, ratios: map<nat, Ratios>, src: Source, s: Sample)
    requires GroupedChain(commits, l, sourceOf, hash, ratios) && s in sourceOf && sourceOf[s] == src
    ensures s in FoldBatches(commits, l) <==> exists k: nat :: Remains(commits, l, sourceOf, src, s, k)
    ensures forall k: nat :: Remains(commits, l, sourceOf, src, s, k) ==>
      s in FoldBatches(commits, l) && FoldBatches(commits, l)[s].split == BucketOf(hash(src), ratios[l[k]])
  {
    hide FoldBatches, Survives;
    forall k: nat | LastNamed(commits, l, s, k)
      ensures s in FoldBatches(commits, l) <==> Remains(commits, l, sourceOf, src, s, k)
      ensures s in FoldBatches(commits, l) ==>
        FoldBatches(commits, l)[s].split == BucketOf(hash(src), ratios[l[k]])
    {
      LastBatchWins(commits, l, s, k);
      assert Grouped(commits[l[k]].batch, sourceOf, hash, ratios[l[k]].train, ratios[l[k]].val);
    }
    NamedOrNot(commits, l, s);
    if s in FoldBatches(commits, l) && forall i :: 0 <= i < |l| ==> s !in commits[l[i]].batch {
      NeverNamed(commits, l, s);
    }
  }

  /**
   * When ratios differ from commit to commit: a source straddles in the tree of a commit exactly
   * if two samples of it remain from commits whose ratios put the source in different buckets.
   */
  lemma StraddlesIff(evs: seq<Event>, r: Repo, l: seq<nat>, sourceOf: map<Sample, Source>, hash: string -> real,
                     ratios: map<nat, Ratios>, src: Source)
    requires Run(evs, r) && RootChain(r.commits, l)
    requires GroupedChain(r.commits, l, sourceOf, hash, ratios)
    ensures Straddles(r.commits[l[|l| - 1]].tree, sourceOf, src)
       <==> exists s, t, i: nat, j: nat ::
              && Remains(r.commits, l, sourceOf, src, s, i) && Remains(r.commits, l, sourceOf, src, t, j)
              && BucketOf(hash(src), ratios[l[i]]) != BucketOf(hash(src), ratios[l[j]])
  {
    hide Run;
    RunInv(evs, r);
    TreeIsFold(r, l);
    var tree := r.commits[l[|l| - 1]].tree;
    hide CommitsOk, RootChain, FoldBatches, LastNamed, Survives, GroupedChain, BucketOf;
    if Straddles(tree, sourceOf, src) {
      var s, t :| && s in tree && t in tree && s in sourceOf && t in sourceOf
                  && sourceOf[s] == src && sourceOf[t] == src && tree[s].split != tree[t].split;
      InTreeIffRemains(r.commits, l, sourceOf, hash, ratios, src, s);
      InTreeIffRemains(r.commits, l, sourceOf, hash, ratios, src, t);
      var i: nat :| Remains(r.commits, l, sourceOf, src, s, i);
      var j: nat :| Remains(r.commits, l, sourceOf, src, t, j);
      assert BucketOf(hash(src), ratios[l[i]]) != BucketOf(hash(src), ratios[l[j]]);
    }
    if s, t, i: nat, j: nat :|
      && Remains(r.commits, l, sourceOf, src, s, i) && Remains(r.commits, l, sourceOf, src, t, j)
      && BucketOf(hash(src), ratios[l[i]]) != BucketOf(hash(src), ratios[l[j]])
    {
      InTreeIffRemains(r.commits, l, sourceOf, hash, ratios, src, s);
      InTreeIffRemains(r.commits, l, sourceOf, hash, ratios, src, t);
      assert tree[s].split != tree[t].split;
    }
  }

  /** A sample carried over by the next commit of the workflow step. */
  ghost predicate Carried(parent: Tree, batch: Tree, s: Sample) {
    s in parent && parent[s].rev.Some? && s !in batch
  }

  /**
   * Changing the ratios between two commits breaks the promise that a source stays whole: after the
   * change a source straddles exactly if it has a carried sample and a new one, and its hash falls
   * in different buckets before and after.
   */
  lemma RatioChangeStraddlesIff(parent: Tree, batch: Tree, sourceOf: map<Sample, Source>, hash: string -> real,
                                train: real, val: real, train': real, val': real, src: Source)
    requires Grouped(parent, sourceOf, hash, train, val) && Grouped(batch, sourceOf, hash, train', val')
    ensures Straddles(Merge(Step, parent, batch), sourceOf, src)
       <==> && (exists s :: Carried(parent, batch, s) && sourceOf[s] == src)
            && (exists t :: t in batch && sourceOf[t] == src)
            && Bucket(hash(src), train, val) != Bucket(hash(src), train', val')
  {
    var tree := Merge(Step, parent, batch);
    if s, t :| Carried(parent, batch, s) && sourceOf[s] == src && t in batch && sourceOf[t] == src {
      assert tree[s].split == Bucket(hash(src), train, val) && tree[t].split == Bucket(hash(src), train', val');
      if tree[s].split != tree[t].split { assert Straddles(tree, sourceOf, src); }
    }
    if Straddles(tree, sourceOf, src) {
      var s, t :| && s in tree && t in tree && s in sourceOf && t in sourceOf
                  && sourceOf[s] == src && sourceOf[t] == src && tree[s].split != tree[t].split;
      assert s in batch <==> t !in batch;
      var kept, fresh_ := if s in batch then t else s, if s in batch then s else t;
      assert Carried(parent, batch, kept) && fresh_ in batch;
    }
  }

  /** The condition is met by a plain input: one source, two samples, and a raised train ratio. */
  lemma RaisedRatioLeaks(hash: string -> real)
    requires hash("clip") == 0.75
    ensures var sourceOf := map["a" := "clip", "b" := "clip"];
            var parent := map["a" := Entry(Some("r1"), Bucket(0.75, 0.7, 0.3))];
            var batch := map["b" := Entry(Some("r2"), Bucket(0.75, 0.8, 0.2))];
            && Grouped(parent, sourceOf, hash, 0.7, 0.3) && Grouped(batch, sourceOf, hash, 0.8, 0.2)
            && Straddles(Merge(Step, parent, batch), sourceOf, "clip")
  {
    var sourceOf := map["a" := "clip", "b" := "clip"];
    var parent := map["a" := Entry(Some("r1"), Bucket(0.75, 0.7, 0.3))];
    var batch := map["b" := Entry(Some("r2"), Bucket(0.75, 0.8, 0.2))];
    RatioChangeStraddlesIff(parent, batch, sourceOf, hash, 0.7, 0.3, 0.8, 0.2, "clip");
    assert Carried(parent, batch, "a") && "b" in batch;
    assert Bucket(0.75, 0.7, 0.3) == "val" && Bucket(0.75, 0.8, 0.2) == "train";
    assert "val"[0] != "train"[0];
  }

  // ---- Cutting a list at two indices ----

  ghost function Cut(i: nat, trainCount: nat, valCount: nat): string {
    if i < trainCount then "train" else if i < trainCount + valCount then "val" else "test"
  }

  ghost function InSplit(tree: Tree, split: string): set<Sample> {
    set s | s in tree && tree[s].split == split
  }

  /** A tree cut at two indices. */
  ghost predicate CutTree(tree: Tree, committed: seq<Sample>, trainCount: nat, valCount: nat) {
    && (forall s :: s in tree <==> s in committed)
    && forall i :: 0 <= i < |committed| ==>
         committed[i] in tree && tree[committed[i]].split == Cut(i, trainCount, valCount)
  }

  lemma CutAt(tree: Tree, committed: seq<Sample>, trainCount: nat, valCount: nat, lo: nat, hi: nat, split: string)
    requires NoDup(committed) && CutTree(tree, committed, trainCount, valCount) && lo <= hi <= |committed|
    requires forall i :: 0 <= i < |committed| ==> (Cut(i, trainCount, valCount) == split <==> lo <= i < hi)
    ensures |InSplit(tree, split)| == hi - lo
  {
    var part := committed[lo..hi];
    forall s ensures s in InSplit(tree, split) <==> s in part {
      CutMember(tree, committed, trainCount, valCount, lo, hi, split, s);
    }
    hide CutTree, Cut, InSplit;
    assert InSplit(tree, split) == Elements(part);
    assert NoDup(part);
    NoDupCardinality(part);
  }

  lemma CutMember(tree: Tree, committed: seq<Sample>, trainCount: nat, valCount: nat, lo: nat, hi: nat,
                  split: string, s: Sample)
    requires CutTree(tree, committed, trainCount, valCount) && lo <= hi <= |committed|
    requires forall i :: 0 <= i < |committed| ==> (Cut(i, trainCount, valCount) == split <==> lo <= i < hi)
    ensures s in InSplit(tree, split) <==> s in committed[lo..hi]
  {
    hide Cut;
    var part := committed[lo..hi];
    if s in InSplit(tree, split) {
      var i :| 0 <= i < |committed| && committed[i] == s;
      assert part[i - lo] == s;
    }
    if s in part {
      var i :| 0 <= i < |part| && part[i] == s;
      assert s == committed[lo + i] && s in committed;
    }
  }

  /** Whole numbers of samples that fit into the two shares of `n`. */
  ghost predicate WholeShares(n: nat, train: real, val: real, trainCount: nat, valCount: nat) {
    && trainCount as real <= n as real * train < trainCount as real + 1.0
    && valCount as real <= n as real * val < valCount as real + 1.0
  }

  /** Each part is as large as fits into its share, the rest is for testing, and the parts follow in order. */
  ghost predicate FairlyCut(tree: Tree, committed: seq<Sample>, train: real, val: real) {
    var n := |committed| as real;
    && |InSplit(tree, "train")| as real <= n * train < |InSplit(tree, "train")| as real + 1.0
    && |InSplit(tree, "val")| as real <= n * val < |InSplit(tree, "val")| as real + 1.0
    && |InSplit(tree, "test")| == |committed| - |InSplit(tree, "train")| - |InSplit(tree, "val")|
    && forall i, j :: 0 <= i < j < |committed| && committed[i] in tree && committed[j] in tree ==>
         && (tree[committed[j]].split == "train" ==> tree[committed[i]].split == "train")
         && (tree[committed[j]].split == "val" ==> tree[committed[i]].split != "test")
  }

  lemma SharesFit(n: nat, train: real, val: real, trainCount: nat, valCount: nat)
    requires train + val <= 1.0 && WholeShares(n, train, val, trainCount, valCount)
    ensures trainCount + valCount <= n
  {
    var total := n as real;
    AtMost(total, train + val);
    assert total * (train + val) == total * train + total * val;
    var a, b := total * train, total * val;
    assert trainCount as real + valCount as real <= total;
  }

  lemma AtMost(n: real, x: real)
    requires n >= 0.0 && x <= 1.0
    ensures n * x <= n
  {
  }

  /** With ratios that sum to at most one, nothing is lost in the cut. */
  lemma CutSizes(tree: Tree, committed: seq<Sample>, train: real, val: real, trainCount: nat, valCount: nat)
    requires NoDup(committed) && train >= 0.0 && val >= 0.0 && train + val <= 1.0
    requires WholeShares(|committed|, train, val, trainCount, valCount)
    requires CutTree(tree, committed, trainCount, valCount)
    ensures FairlyCut(tree, committed, train, val)
  {
    var n, t, v := |committed| as real, trainCount, valCount;
    SharesFit(|committed|, train, val, t, v);
    assert "train"[0] != "val"[0] && "test"[1] != "train"[1] && "test"[0] != "val"[0];
    CutAt(tree, committed, t, v, 0, t, "train");
    CutAt(tree, committed, t, v, t, t + v, "val");
    CutAt(tree, committed, t, v, t + v, |committed|, "test");
  }

  /** Both products are floored; what is left over becomes the test split. */
  method SplitCounts(total: nat, train: real, val: real) returns (trainCount: nat, valCount: nat)
    requires train >= 0.0 && val >= 0.0
    ensures WholeShares(total, train, val, trainCount, valCount)
  {
    assert total as real * train >= 0.0 && total as real * val >= 0.0;
    trainCount, valCount := (total as real * train).Floor, (total as real * val).Floor;
  }

  /** The batch of the from-samples endpoint: pinned where annotated, and cut by position. */
  method CutBatch(committed: seq<Sample>, winning: map<Sample, Revision>, train: real, val: real)
    returns (batch: Tree)
    requires NoDup(committed) && train >= 0.0 && val >= 0.0 && train + val <= 1.0
    ensures forall s :: s in batch <==> s in committed
    ensures forall s :: s in batch ==> batch[s].rev == if s in winning then Some(winning[s]) else None
    ensures FairlyCut(batch, committed, train, val)
  {
    hide FairlyCut, WholeShares;
    var trainCount, valCount := SplitCounts(|committed|, train, val);
    batch := map[];
    for i := 0 to |committed|
      invariant forall s :: s in batch <==> s in committed[..i]
      invariant forall s :: s in batch ==> batch[s].rev == if s in winning then Some(winning[s]) else None
      invariant forall j :: 0 <= j < i ==>
        committed[j] in batch && batch[committed[j]].split == Cut(j, trainCount, valCount)
    {
      var s := committed[i];
      var split := if i < trainCount then "train" else if i < trainCount + valCount then "val" else "test";
      batch := batch[s := Entry(if s in winning then Some(winning[s]) else None, split)];
      assert committed[..i + 1] == committed[..i] + [s];
    }
    assert committed[..|committed|] == committed;
    CutSizes(batch, committed, train, val, trainCount, valCount);
  }

  /** The plain endpoint's rows, split by position among all samples of the request. */
  ghost predicate DirectlyCut(batch: Tree, samples: seq<Sample>, revisions: seq<Revision>, train: real, val: real) {
    exists trainCount: nat, valCount: nat ::
      && WholeShares(|samples|, train, val, trainCount, valCount)
      && batch == ZipBatch(samples, revisions, (i: nat) => Cut(i, trainCount, valCount))
  }

  /** The loop over the paired lists; a sample that is paired twice would violate the rows' key. */
  method PairBatch(samples: seq<Sample>, revisions: seq<Revision>, train: real, val: real) returns (batch: Tree)
    requires NoDup(samples[..Paired(samples, revisions)]) && train >= 0.0 && val >= 0.0
    ensures DirectlyCut(batch, samples, revisions, train, val)
  {
    hide WholeShares, ZipBatch, NoDup;
    var trainCount, valCount := SplitCounts(|samples|, train, val);
    batch := PairUp(samples, revisions, trainCount, valCount);
  }

  method PairUp(samples: seq<Sample>, revisions: seq<Revision>, trainCount: nat, valCount: nat)
    returns (batch: Tree)
    requires NoDup(samples[..Paired(samples, revisions)])
    ensures batch == ZipBatch(samples, revisions, (i: nat) => Cut(i, trainCount, valCount))
  {
    ghost var cut := (i: nat) => Cut(i, trainCount, valCount);
    hide ZipBatch, NoDup;
    batch := map[];
    NoPairs(samples, revisions, cut);
    var i := 0;
    while i < |samples| && i < |revisions|
      invariant i <= Paired(samples, revisions) && PairedUpTo(samples, revisions, i, cut, batch)
    {
      var split := if i < trainCount then "train" else if i < trainCount + valCount then "val" else "test";
      PairedOnce(samples, revisions, i);
      OnePair(samples, revisions, i, cut, batch);
      batch := batch[samples[i] := Entry(Some(revisions[i]), split)];
      i := i + 1;
    }
    PairsAreZip(samples, revisions, cut, batch);
  }
}

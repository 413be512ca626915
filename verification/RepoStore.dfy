/**
 * The commits, refs and statistics as an object. The two committers' code runs as methods that take
 * exactly the transactions of the history model, so its theorems hold after every call.
 */
module RepoStore {
  import opened Prelude
  import opened Versioning
  import opened CommitDataset
  import opened Splits

  datatype Strategy = SourceGroup | PerSample

  /** What the step decides before it takes the branch lock. */
  datatype Plan = Plan(committed: seq<Sample>, best: map<Sample, RevRow>, batch: Tree, skipped: nat)

  function Assign(strategy: Strategy, ids: seq<Sample>, sourceOf: map<Sample, Source>, hash: string -> real,
                  train: real, val: real): map<Sample, string>
    requires forall s :: s in ids ==> s in sourceOf
  {
    match strategy
    case SourceGroup => BySourceGroup(ids, sourceOf, hash, train, val)
    case PerSample => RandomSeeded(ids, hash, train, val)
  }

  ghost function Annotated(ids: seq<Sample>, best: map<Sample, RevRow>): (kept: seq<Sample>)
    ensures forall s :: s in kept <==> s in ids && s in best
    ensures |kept| <= |ids|
  {
    if ids == [] then [] else (if ids[0] in best then [ids[0]] else []) + Annotated(ids[1..], best)
  }

  method KeepAnnotated(ids: seq<Sample>, best: map<Sample, RevRow>) returns (kept: seq<Sample>)
    ensures kept == Annotated(ids, best)
  {
    hide Annotated;
    kept := [];
    for i := 0 to |ids|
      invariant Annotated(ids, best) == kept + Annotated(ids[i..], best)
    {
      AnnotatedNext(ids, best, i, kept);
      if ids[i] in best { kept := kept + [ids[i]]; }
    }
    NoneLeft(ids, best, kept);
  }

  lemma AnnotatedNext(ids: seq<Sample>, best: map<Sample, RevRow>, i: nat, kept: seq<Sample>)
    requires i < |ids|
    ensures kept + Annotated(ids[i..], best)
         == (if ids[i] in best then kept + [ids[i]] else kept) + Annotated(ids[i + 1..], best)
  {
    assert ids[i..][1..] == ids[i + 1..];
  }

  lemma NoneLeft(ids: seq<Sample>, best: map<Sample, RevRow>, kept: seq<Sample>)
    ensures kept + Annotated(ids[|ids|..], best) == kept
  {
  }

  /** The plan pins each annotated input sample to its champion, and splits by preset or strategy. */
  ghost predicate PlanExact(ids: seq<Sample>, rows: seq<RevRow>, preset: map<Sample, string>, plan: Plan) {
    && (forall s :: s in plan.batch <==> s in ids && exists r :: r in rows && r.sample == s)
    && (forall s :: s in plan.committed <==> s in plan.batch)
    && plan.skipped == |ids| - |plan.committed|
    && (forall s :: s in plan.batch ==>
          && s in plan.best && Champion(rows, s, plan.best[s])
          && plan.batch[s].rev == Some(plan.best[s].id)
          && (preset != map[] ==> plan.batch[s].split == if s in preset then preset[s] else "train"))
  }

  /**
   * Plan a commit of the workflow step; there is no plan when no input sample has a revision. A
   * plan without presets that groups by source is the kind whose histories cannot leak.
   */
  method PlanBatch(ids: seq<Sample>, rows: seq<RevRow>, preset: map<Sample, string>, strategy: Strategy,
                   sourceOf: map<Sample, Source>, hash: string -> real, train: real, val: real)
    returns (plan: Option<Plan>)
    requires forall s :: s in ids ==> s in sourceOf
    ensures plan.None? <==> forall r :: r in rows ==> r.sample !in ids
    ensures plan.Some? ==> PlanExact(ids, rows, preset, plan.value)
    ensures plan.Some? && preset == map[] && strategy == SourceGroup ==>
      Grouped(plan.value.batch, sourceOf, hash, train, val)
    ensures plan.Some? && preset == map[] && strategy == PerSample ==>
      forall s :: s in plan.value.batch ==> InRange(hash(s), train, val, plan.value.batch[s].split)
  {
    var best := BestRevisions(rows);
    var committed := KeepAnnotated(ids, best);
    if committed == [] {
      assert forall s :: s in ids ==> s !in best;
      return None;
    }
    assert committed[0] in committed;
    var splits := if preset != map[]
      then map s | s in committed :: if s in preset then preset[s] else "train"
      else Assign(strategy, committed, sourceOf, hash, train, val);
    var batch := map s | s in committed :: Entry(Some(best[s].id), splits[s]);
    plan := Some(Plan(committed, best, batch, |ids| - |committed|));
  }

  /** The rows of one commit, in some order. */
  method ReadRows(tree: Tree) returns (rows: seq<(Sample, Entry)>)
    ensures RowsOf(rows, tree)
  {
    rows := [];
    var todo := tree.Keys;
    while todo != {}
      invariant todo <= tree.Keys
      invariant forall i, j :: 0 <= i < j < |rows| ==> rows[i].0 != rows[j].0
      invariant forall row :: row in rows ==> row.0 in tree && row.0 !in todo && tree[row.0] == row.1
      invariant forall s :: s in tree && s !in todo ==> (s, tree[s]) in rows
    {
      var s :| s in todo;
      rows := rows + [(s, tree[s])];
      todo := todo - {s};
    }
  }

  ghost predicate ReachableRepo(r: Repo) {
    exists evs :: Run(evs, r)
  }

  lemma ReachOne(r: Repo, e: Event)
    requires ReachableRepo(r) && Enabled(r, e)
    ensures ReachableRepo(Effect(r, e))
  {
    var evs :| Run(evs, r);
    var more := evs + [e];
    assert more[..|more| - 1] == evs && more[|more| - 1] == e;
    hide Enabled, Effect;
    assert Run(more, Effect(r, e));
  }

  /** A batch row of the step pins a revision that the table has, as its plan recorded it. */
  ghost predicate Backed(revs: map<Revision, RevRow>, plan: Plan) {
    forall s :: s in plan.committed ==>
      s in plan.best && plan.best[s].id in revs && revs[plan.best[s].id] == plan.best[s]
  }

  /** Each committer stores its own kind of statistics, with the counts that no tree determines. */
  ghost predicate StatsKind(mode: Mode, st: Stats, plan: Plan, requested: nat) {
    match mode
    case Step => st.StepStats? && st.skipped == plan.skipped
    case FromSamples => st.SampleStats?
    case Direct => st == DirectStats(requested)
  }

  class Repository {
    const revs: RevTable
    var commits: map<nat, Commit>
    var refs: map<RefKey, nat>
    var stats: map<nat, Stats>
    var txs: map<nat, Tx>
    var locks: map<RefKey, nat>
    ghost var heads: map<RefKey, seq<nat>>

    ghost function View(): Repo
      reads this
    {
      Repo(commits, refs, txs, locks, heads)
    }

    /** Every stored statistic of a cumulative commit equals a recount of the commit's tree. */
    ghost predicate StatsTrue()
      reads this
    {
      forall c :: c in commits ==>
        c in stats && (commits[c].mode != Direct ==> Recount(revs, commits[c].tree, stats[c]))
    }

    ghost predicate Valid()
      reads this
    {
      ReachableRepo(View()) && StatsTrue()
    }

    constructor (revs: RevTable)
      ensures Valid() && View() == Init() && this.revs == revs
    {
      this.revs := revs;
      commits, refs, stats, txs, locks, heads := map[], map[], map[], map[], map[], map[];
      new;
      assert Run([], View());
    }

    /**
     * Look the branch up and remember its target: the step locks the row, the router only reads it
     * and raises when a branch and a tag share the name.
     */
    method Open(t: nat, mode: Mode, name: string, batch: Tree) returns (ok: bool)
      requires Valid() && t !in txs && (mode == Step ==> Branch(name) !in locks)
      modifies this`txs, this`locks
      ensures Valid() && ok == !Ambiguous(refs, mode, name)
      ensures View() == if ok then Effect(old(View()), Begin(t, mode, name, batch)) else old(View())
    {
      if mode != Step && Branch(name) in refs && Tag(name) in refs {
        return false;
      }
      ghost var r := View();
      var key := if mode == Step || Branch(name) in refs || Tag(name) !in refs then Branch(name) else Tag(name);
      var parent := if key in refs then Some(refs[key]) else None;
      txs := txs[t := Tx(mode, key, parent, batch)];
      if mode == Step && key in refs { locks := locks[key := t]; }
      ReachOne(r, Begin(t, mode, name, batch));
      ok := true;
    }

    /** The tree and the statistics of the commit a transaction is about to write. */
    method Build(tx: Tx, plan: Plan, requested: nat) returns (tree: Tree, st: Stats)
      requires ReachableRepo(View()) && tx in txs.Values && tx.batch == plan.batch
      requires forall s :: s in plan.committed <==> s in plan.batch
      requires tx.mode == Step ==> Backed(revs, plan)
      ensures tree == Merge(tx.mode, TreeOf(commits, tx.parent), tx.batch)
      ensures StatsKind(tx.mode, st, plan, requested)
      ensures tx.mode != Direct ==> Recount(revs, tree, st)
    {
      if tx.mode == Direct {
        return tx.batch, DirectStats(requested);
      }
      var parent := map[];
      if tx.parent.Some? && tx.parent.value in commits { parent := commits[tx.parent.value].tree; }
      var rows := ReadRows(parent);
      hide *;
      tree := MergeBatch(tx.mode, rows, parent, plan.committed, tx.batch);
      if tx.mode == Step {
        var meta := LoadMeta(revs, tree, plan.committed, plan.best);
        st := StepStatsOf(meta, tree, plan.skipped);
        RecountAgrees(revs, tree, meta, st);
      } else {
        st := SampleStatsOf(tree);
        RecountIgnoresTable(revs, tree, st);
      }
    }

    /**
     * Write the commit and move the ref. The write is refused, and nothing of it stays, when the
     * branch was created meanwhile or the compare-and-swap finds another target.
     */
    method Land(t: nat, id: nat, plan: Plan, requested: nat) returns (ok: bool)
      requires Valid() && t in txs && id !in commits && txs[t].batch == plan.batch
      requires txs[t].key in locks ==> locks[txs[t].key] == t
      requires forall s :: s in plan.committed <==> s in plan.batch
      requires txs[t].mode == Step ==> Backed(revs, plan)
      modifies this
      ensures Valid() && ok == Lands(old(View()), old(txs[t]), t)
      ensures View() == Effect(old(View()), if ok then Finish(t, id) else Abort(t))
      ensures !ok ==> commits == old(commits) && refs == old(refs) && stats == old(stats)
      ensures ok ==> exists st :: StatsKind(old(txs[t]).mode, st, plan, requested) && stats == old(stats)[id := st]
    {
      ghost var r := View();
      var tx := txs[t];
      assert tx in txs.Values;
      hide Recount, ReachableRepo, Merge, TreeOf, Effect, Lands, Backed, Release, Lookup;
      var tree, st := Build(tx, plan, requested);
      ok := CanLand(t);
      if ok {
        Write(t, id, tree, st);
        ReachOne(r, Finish(t, id));
      } else {
        RollBack(t);
        ReachOne(r, Abort(t));
      }
    }

    /** An insert must not clash with a ref made meanwhile, an update must find its row. */
    method CanLand(t: nat) returns (ok: bool)
      requires t in txs && (txs[t].key in locks ==> locks[txs[t].key] == t)
      ensures ok == Lands(View(), txs[t], t)
    {
      var tx := txs[t];
      ok := if tx.parent.None? then tx.key !in refs
        else tx.key in refs && (tx.mode == Step || refs[tx.key] == tx.parent.value);
    }

    /** Nothing of a refused transaction stays. */
    method RollBack(t: nat)
      requires t in txs && StatsTrue()
      modifies this`txs, this`locks
      ensures StatsTrue() && View() == Effect(old(View()), Abort(t)) && stats == old(stats)
    {
      txs := txs - {t};
      ReleaseLocks(t);
    }

    /** The transaction's row locks end with it. */
    method ReleaseLocks(t: nat)
      modifies this`locks
      ensures locks == Release(old(locks), t)
    {
      locks := map k | k in locks && locks[k] != t :: locks[k];
    }

    method Write(t: nat, id: nat, tree: Tree, st: Stats)
      requires StatsTrue() && Enabled(View(), Finish(t, id))
      requires tree == Merge(txs[t].mode, TreeOf(commits, txs[t].parent), txs[t].batch)
      requires txs[t].mode != Direct ==> Recount(revs, tree, st)
      modifies this
      ensures StatsTrue() && View() == Effect(old(View()), Finish(t, id)) && stats == old(stats)[id := st]
    {
      hide Merge, Recount, Lands, Release;
      var tx := txs[t];
      commits := commits[id := Commit(tx.parent, tx.mode, tx.batch, tree)];
      stats := stats[id := st];
      heads := heads[tx.key := (if tx.key in heads then heads[tx.key] else []) + [id]];
      refs := refs[tx.key := id];
      txs := txs - {t};
      ReleaseLocks(t);
    }
  }

  lemma RecountIgnoresTable(revs: map<Revision, RevRow>, tree: Tree, st: Stats)
    requires st.SampleStats? && Recount(map[], tree, st)
    ensures Recount(revs, tree, st)
  {
    hide Counts;
  }
}

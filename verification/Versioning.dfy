/**
 * Git-like dataset versioning: commits, refs, and transactions of two kinds of committers that
 * run concurrently. The workflow step locks the ref row; the router compares and swaps.
 */
module Versioning {
  import opened Prelude

  type Sample = string
  type Revision = string

  /** A sample's pin in a commit: an annotation revision, if it has one, and a split. */
  datatype Entry = Entry(rev: Option<Revision>, split: string)

  type Tree = map<Sample, Entry>

  /** Which committer wrote a commit: the workflow step, from-samples, or the plain endpoint. */
  datatype Mode = Step | FromSamples | Direct

  datatype Commit = Commit(parent: Option<nat>, mode: Mode, batch: Tree, tree: Tree)

  datatype RefKey = Branch(name: string) | Tag(name: string)

  /** An open transaction and what it read when it looked up the ref. */
  datatype Tx = Tx(mode: Mode, key: RefKey, parent: Option<nat>, batch: Tree)

  datatype Repo = Repo(
    commits: map<nat, Commit>,
    refs: map<RefKey, nat>,
    txs: map<nat, Tx>,
    locks: map<RefKey, nat>,             // row locks taken with FOR UPDATE, by transaction
    heads: map<RefKey, seq<nat>>)        // every target a ref has had, oldest first

  datatype Event =
    | Begin(t: nat, mode: Mode, name: string, batch: Tree)
    | Finish(t: nat, id: nat)
    | Abort(t: nat)
    | CreateRef(key: RefKey, target: nat)

  ghost function Init(): Repo {
    Repo(map[], map[], map[], map[], map[])
  }

  /** The tree of a new commit. The step skips parent rows without a revision. */
  ghost function Merge(mode: Mode, parent: Tree, batch: Tree): Tree {
    match mode
    case Step => (map s | s in parent && parent[s].rev.Some? :: parent[s]) + batch
    case FromSamples => parent + batch
    case Direct => batch
  }

  ghost function TreeOf(commits: map<nat, Commit>, c: Option<nat>): Tree {
    if c.Some? && c.value in commits then commits[c.value].tree else map[]
  }

  /** The step looks for a branch; the router's query matches the name of any ref. */
  ghost function Lookup(refs: map<RefKey, nat>, mode: Mode, name: string): RefKey {
    if mode != Step && Branch(name) !in refs && Tag(name) in refs then Tag(name) else Branch(name)
  }

  /** With a branch and a tag of one name, the router's query returns two rows and raises. */
  ghost predicate Ambiguous(refs: map<RefKey, nat>, mode: Mode, name: string) {
    mode != Step && Branch(name) in refs && Tag(name) in refs
  }

  /** The commit lands: the ref row is not locked by another, and is still what the tx read. */
  ghost predicate Lands(r: Repo, tx: Tx, t: nat) {
    && (tx.key in r.locks ==> r.locks[tx.key] == t)
    && match tx.parent
       case Some(p) => tx.key in r.refs && (tx.mode == Step || r.refs[tx.key] == p)
       case None => tx.key !in r.refs
  }

  ghost predicate Enabled(r: Repo, e: Event) {
    match e
    case Begin(t, mode, name, _) =>
      t !in r.txs && !Ambiguous(r.refs, mode, name)
      && (mode == Step ==> Branch(name) !in r.locks)
    case Finish(t, id) => t in r.txs && id !in r.commits && Lands(r, r.txs[t], t)
    case Abort(t) => t in r.txs
    case CreateRef(key, target) => key !in r.refs && target in r.commits
  }

  ghost function Release(locks: map<RefKey, nat>, t: nat): map<RefKey, nat> {
    map k | k in locks && locks[k] != t :: locks[k]
  }

  ghost function Effect(r: Repo, e: Event): Repo
    requires Enabled(r, e)
  {
    match e
    case Begin(t, mode, name, batch) =>
      var key := Lookup(r.refs, mode, name);
      var parent := if key in r.refs then Some(r.refs[key]) else None;
      r.(txs := r.txs[t := Tx(mode, key, parent, batch)],
         locks := if mode == Step && key in r.refs then r.locks[key := t] else r.locks)
    case Finish(t, id) =>
      var tx := r.txs[t];
      var commit := Commit(tx.parent, tx.mode, tx.batch,
                           Merge(tx.mode, TreeOf(r.commits, tx.parent), tx.batch));
      var past := if tx.key in r.heads then r.heads[tx.key] else [];
      Repo(r.commits[id := commit], r.refs[tx.key := id], r.txs - {t}, Release(r.locks, t),
           r.heads[tx.key := past + [id]])
    case Abort(t) => r.(txs := r.txs - {t}, locks := Release(r.locks, t))
    case CreateRef(key, target) =>
      r.(refs := r.refs[key := target], heads := r.heads[key := [target]])
  }

  ghost predicate Run(evs: seq<Event>, r: Repo)
    decreases |evs|
  {
    if evs == [] then r == Init()
    else
      var n := |evs| - 1;
      exists m :: Run(evs[..n], m) && Enabled(m, evs[n]) && r == Effect(m, evs[n])
  }

  // ---- Invariants ----

  /** Each listed commit is the parent of the next. */
  ghost predicate Linked(commits: map<nat, Commit>, l: seq<nat>) {
    && (forall i :: 0 <= i < |l| ==> l[i] in commits)
    && (forall i :: 0 <= i < |l| - 1 ==> commits[l[i + 1]].parent == Some(l[i]))
  }

  ghost predicate HistoryOk(r: Repo) {
    && r.heads.Keys == r.refs.Keys
    && forall k :: k in r.refs ==>
         r.heads[k] != [] && r.heads[k][|r.heads[k]| - 1] == r.refs[k] && Linked(r.commits, r.heads[k])
  }

  /** The lock on a ref is held exactly by the step that read its present target. */
  ghost predicate LocksOk(r: Repo) {
    && (forall k :: k in r.locks ==>
          && r.locks[k] in r.txs && k in r.refs
          && r.txs[r.locks[k]].mode == Step && r.txs[r.locks[k]].key == k
          && r.txs[r.locks[k]].parent == Some(r.refs[k]))
    && (forall t :: t in r.txs && r.txs[t].mode == Step && r.txs[t].parent.Some? ==>
          r.txs[t].key in r.locks && r.locks[r.txs[t].key] == t)
  }

  ghost predicate CommitOk(commits: map<nat, Commit>, c: nat)
    requires c in commits
  {
    && (commits[c].parent.Some? ==> commits[c].parent.value in commits)
    && commits[c].tree == Merge(commits[c].mode, TreeOf(commits, commits[c].parent), commits[c].batch)
  }

  ghost predicate CommitsOk(r: Repo) {
    && (forall c :: c in r.commits ==> CommitOk(r.commits, c))
    && (forall t :: t in r.txs && r.txs[t].parent.Some? ==> r.txs[t].parent.value in r.commits)
  }

  ghost predicate Inv(r: Repo) {
    HistoryOk(r) && LocksOk(r) && CommitsOk(r)
  }

  /** A landing transaction read the present target, whether it locked it or compared it. */
  lemma LandingReadsHead(r: Repo, t: nat)
    requires LocksOk(r) && t in r.txs && Lands(r, r.txs[t], t) && r.txs[t].parent.Some?
    ensures r.txs[t].key in r.refs && r.txs[t].parent == Some(r.refs[r.txs[t].key])
  {
  }

  lemma FinishLocks(r: Repo, t: nat, id: nat)
    requires LocksOk(r) && Enabled(r, Finish(t, id))
    ensures LocksOk(Effect(r, Finish(t, id)))
  {
    var r', tx := Effect(r, Finish(t, id)), r.txs[t];
    forall k | k in r'.locks
      ensures r'.locks[k] in r'.txs && k in r'.refs && r'.txs[r'.locks[k]].parent == Some(r'.refs[k])
    {
      assert k in r.locks && r.locks[k] != t;
      assert k != tx.key;
    }
  }

  lemma LinkedStays(commits: map<nat, Commit>, more: map<nat, Commit>, l: seq<nat>)
    requires Linked(commits, l)
    requires forall c :: c in commits ==> c in more && more[c] == commits[c]
    ensures Linked(more, l)
  {
  }

  lemma LinkedAlone(commits: map<nat, Commit>, c: nat)
    requires c in commits
    ensures Linked(commits, [c])
  {
  }

  lemma LinkedGrows(commits: map<nat, Commit>, l: seq<nat>, c: nat)
    requires Linked(commits, l) && l != [] && c in commits
    requires commits[c].parent == Some(l[|l| - 1])
    ensures Linked(commits, l + [c])
  {
  }

  /** A landing adds one commit and moves one ref to it. */
  lemma FinishMoves(r: Repo, t: nat, id: nat)
    requires Enabled(r, Finish(t, id))
    ensures var r', tx := Effect(r, Finish(t, id)), r.txs[t];
      && r'.refs == r.refs[tx.key := id]
      && r'.heads == r.heads[tx.key := (if tx.key in r.heads then r.heads[tx.key] else []) + [id]]
      && id in r'.commits && r'.commits[id].parent == tx.parent
      && forall c :: c in r.commits ==> c in r'.commits && r'.commits[c] == r.commits[c]
  {
    hide Merge, Release, Lands;
  }

  lemma FinishHistory(r: Repo, t: nat, id: nat)
    requires HistoryOk(r) && LocksOk(r) && Enabled(r, Finish(t, id))
    ensures HistoryOk(Effect(r, Finish(t, id)))
  {
    var tx := r.txs[t];
    if tx.parent.Some? { LandingReadsHead(r, t); }
    assert tx.parent.None? ==> tx.key !in r.refs;
    FinishMoves(r, t, id);
    hide Effect, Enabled, LocksOk;
    MovedHistory(r, Effect(r, Finish(t, id)), tx, id);
  }

  /** The targets of a ref after it moved to a commit whose parent was its last target. */
  lemma MovedTargets(commits: map<nat, Commit>, l: seq<nat>, id: nat)
    requires id in commits && Linked(commits, l)
    requires commits[id].parent == if l == [] then None else Some(l[|l| - 1])
    ensures Linked(commits, l + [id]) && l + [id] != [] && (l + [id])[|l + [id]| - 1] == id
  {
    hide Linked;
    if l == [] {
      LinkedAlone(commits, id);
      assert [] + [id] == [id];
    } else {
      LinkedGrows(commits, l, id);
    }
  }

  lemma MovedHistory(r: Repo, r': Repo, tx: Tx, id: nat)
    requires HistoryOk(r) && id in r'.commits && r'.commits[id].parent == tx.parent
    requires forall c :: c in r.commits ==> c in r'.commits && r'.commits[c] == r.commits[c]
    requires tx.parent == if tx.key in r.refs then Some(r.refs[tx.key]) else None
    requires r'.refs == r.refs[tx.key := id]
    requires r'.heads == r.heads[tx.key := (if tx.key in r.heads then r.heads[tx.key] else []) + [id]]
    ensures HistoryOk(r')
  {
    assert forall k :: k in r.refs <==> k in r.heads.Keys;
    assert Linked(r'.commits, []);
    hide Linked;
    forall k | k in r.refs ensures Linked(r'.commits, r.heads[k]) {
      LinkedStays(r.commits, r'.commits, r.heads[k]);
    }
    MovedTargets(r'.commits, if tx.key in r.heads then r.heads[tx.key] else [], id);
  }

  lemma FinishCommits(r: Repo, t: nat, id: nat)
    requires CommitsOk(r) && Enabled(r, Finish(t, id))
    ensures CommitsOk(Effect(r, Finish(t, id)))
  {
    var r' := Effect(r, Finish(t, id));
    hide Merge, Release, Lands;
    forall c | c in r'.commits ensures CommitOk(r'.commits, c) {
      if c != id { assert CommitOk(r.commits, c); }
    }
  }

  lemma HeadChain(r: Repo, k: RefKey)
    requires Inv(r) && k in r.refs
    ensures k in r.heads && r.heads[k] != [] && Linked(r.commits, r.heads[k])
    ensures r.heads[k][|r.heads[k]| - 1] == r.refs[k]
  {
    hide Linked, LocksOk, CommitsOk;
  }

  lemma HeadIsCommit(r: Repo, k: RefKey)
    requires Inv(r) && k in r.refs
    ensures r.refs[k] in r.commits
  {
    HeadChain(r, k);
    hide Inv, HistoryOk;
    assert r.refs[k] == r.heads[k][|r.heads[k]| - 1];
  }

  lemma BeginLocks(r: Repo, e: Event)
    requires LocksOk(r) && e.Begin? && Enabled(r, e)
    ensures LocksOk(Effect(r, e))
  {
    hide Ambiguous;
  }

  lemma BeginInv(r: Repo, e: Event)
    requires Inv(r) && e.Begin? && Enabled(r, e)
    ensures Inv(Effect(r, e))
  {
    var key := Lookup(r.refs, e.mode, e.name);
    if key in r.refs { HeadIsCommit(r, key); }
    BeginLocks(r, e);
    hide Linked, CommitOk, LocksOk, Ambiguous, Lookup;
  }

  lemma AbortInv(r: Repo, t: nat)
    requires Inv(r) && Enabled(r, Abort(t))
    ensures Inv(Effect(r, Abort(t)))
  {
    hide Linked, CommitOk;
  }

  lemma CreateRefInv(r: Repo, key: RefKey, target: nat)
    requires Inv(r) && Enabled(r, CreateRef(key, target))
    ensures Inv(Effect(r, CreateRef(key, target)))
  {
    hide CommitOk;
  }

  lemma StepInv(r: Repo, e: Event)
    requires Inv(r) && Enabled(r, e)
    ensures Inv(Effect(r, e))
  {
    match e
    case Begin(_, _, _, _) => hide *; BeginInv(r, e);
    case Finish(t, id) =>
      FinishLocks(r, t, id);
      FinishHistory(r, t, id);
      FinishCommits(r, t, id);
      hide HistoryOk, LocksOk, CommitsOk, Effect, Enabled;
    case Abort(t) => hide *; AbortInv(r, t);
    case CreateRef(key, target) => hide *; CreateRefInv(r, key, target);
  }

  lemma {:induction false} RunInv(evs: seq<Event>, r: Repo)
    requires Run(evs, r)
    ensures Inv(r)
    decreases |evs|
  {
    if evs != [] {
      var n := |evs| - 1;
      var m :| Run(evs[..n], m) && Enabled(m, evs[n]) && r == Effect(m, evs[n]);
      RunInv(evs[..n], m);
      hide Run, Inv, Effect, Enabled;
      StepInv(m, evs[n]);
    }
  }

  // ---- Linear history ----

  /** `a` is `c` or an ancestor of it. */
  ghost predicate CommitAncestor(commits: map<nat, Commit>, a: nat, c: nat) {
    exists l :: Linked(commits, l) && l != [] && l[0] == a && l[|l| - 1] == c
  }

  lemma LinkedTail(commits: map<nat, Commit>, l: seq<nat>, i: nat)
    requires Linked(commits, l) && i < |l|
    ensures CommitAncestor(commits, l[i], l[|l| - 1])
  {
    assert Linked(commits, l[i..]);
  }

  /**
   * Linear history: with lock-based and compare-and-swap committers interleaved, the successive
   * targets of every ref form a parent chain ending at its head, so each of them, and every commit
   * acknowledged on the ref, stays an ancestor of the head.
   */
  lemma LinearHistory(evs: seq<Event>, r: Repo, k: RefKey, i: nat)
    requires Run(evs, r) && k in r.refs && k in r.heads && i < |r.heads[k]|
    ensures Linked(r.commits, r.heads[k]) && r.heads[k][|r.heads[k]| - 1] == r.refs[k]
    ensures CommitAncestor(r.commits, r.heads[k][i], r.refs[k])
  {
    hide *;
    RunInv(evs, r);
    HeadChain(r, k);
    LinkedTail(r.commits, r.heads[k], i);
  }

  /** A run that goes on from `m`. */
  ghost predicate Continues(m: Repo, evs: seq<Event>, r: Repo)
    decreases |evs|
  {
    if evs == [] then r == m
    else
      var n := |evs| - 1;
      exists q :: Continues(m, evs[..n], q) && Enabled(q, evs[n]) && r == Effect(q, evs[n])
  }

  lemma StepExtendsHeads(r: Repo, e: Event, k: RefKey)
    requires Inv(r) && Enabled(r, e) && k in r.heads
    ensures k in Effect(r, e).heads && r.heads[k] <= Effect(r, e).heads[k]
  {
    hide Merge, Release, Lands, Lookup, Ambiguous, TreeOf, LocksOk, CommitsOk, Linked;
  }

  lemma {:induction false} HeadsGrow(m: Repo, evs: seq<Event>, r: Repo, k: RefKey)
    requires Inv(m) && Continues(m, evs, r) && k in m.heads
    ensures Inv(r) && k in r.heads && m.heads[k] <= r.heads[k]
    decreases |evs|
  {
    if evs != [] {
      var n := |evs| - 1;
      var q :| Continues(m, evs[..n], q) && Enabled(q, evs[n]) && r == Effect(q, evs[n]);
      hide *;
      HeadsGrow(m, evs[..n], q, k);
      StepInv(q, evs[n]);
      StepExtendsHeads(q, evs[n], k);
    }
  }

  lemma LandingTx(r: Repo, t: nat, id: nat)
    requires Enabled(r, Finish(t, id))
    ensures t in r.txs
  {
  }

  lemma HeadsAreRefs(r: Repo, k: RefKey)
    requires Inv(r) && k in r.heads
    ensures k in r.refs
  {
    hide Linked, LocksOk, CommitsOk;
  }

  lemma LinkedPrefix(commits: map<nat, Commit>, front: seq<nat>, l: seq<nat>)
    requires Linked(commits, l) && front != [] && front <= l
    ensures CommitAncestor(commits, front[|front| - 1], l[|l| - 1])
  {
    LinkedTail(commits, l, |front| - 1);
  }

  lemma LandingHeads(r: Repo, t: nat, id: nat)
    requires Enabled(r, Finish(t, id))
    ensures t in r.txs && r.txs[t].key in Effect(r, Finish(t, id)).heads
    ensures var l := Effect(r, Finish(t, id)).heads[r.txs[t].key]; l != [] && l[|l| - 1] == id
  {
    hide Merge, Release, Lands, TreeOf;
  }

  /** A commit that was acknowledged on a ref is an ancestor of its head ever after. */
  lemma AcknowledgedStaysAncestor(evs: seq<Event>, m: Repo, t: nat, id: nat, more: seq<Event>, r: Repo)
    requires Run(evs, m) && Enabled(m, Finish(t, id))
    requires Continues(Effect(m, Finish(t, id)), more, r)
    ensures m.txs[t].key in r.refs && CommitAncestor(r.commits, id, r.refs[m.txs[t].key])
  {
    LandingTx(m, t, id);
    hide *;
    var k, now := m.txs[t].key, Effect(m, Finish(t, id));
    RunInv(evs, m);
    LandingHeads(m, t, id);
    StepInv(m, Finish(t, id));
    HeadsGrow(now, more, r, k);
    HeadsAreRefs(r, k);
    HeadChain(r, k);
    LinkedPrefix(r.commits, now.heads[k], r.heads[k]);
  }

  /** The commits whose transaction was acknowledged. */
  ghost function Acknowledged(evs: seq<Event>): set<nat> {
    if evs == [] then {}
    else
      Acknowledged(evs[..|evs| - 1])
      + if evs[|evs| - 1].Finish? then {evs[|evs| - 1].id} else {}
  }

  lemma OneCommitPerLanding(r: Repo, e: Event)
    requires Enabled(r, e)
    ensures Effect(r, e).commits.Keys == r.commits.Keys + if e.Finish? then {e.id} else {}
  {
    hide Merge, Release, Lands, Lookup, Ambiguous, TreeOf;
  }

  /** No orphans: the table holds exactly the acknowledged commits, so an abort leaves none. */
  lemma {:induction false} OnlyAcknowledgedCommits(evs: seq<Event>, r: Repo)
    requires Run(evs, r)
    ensures r.commits.Keys == Acknowledged(evs)
    decreases |evs|
  {
    if evs != [] {
      var n := |evs| - 1;
      var m :| Run(evs[..n], m) && Enabled(m, evs[n]) && r == Effect(m, evs[n]);
      OnlyAcknowledgedCommits(evs[..n], m);
      hide Run, Enabled;
      OneCommitPerLanding(m, evs[n]);
      hide Effect;
    }
  }

  /** A committer that lost the race cannot land: its update matches no row, or its insert clashes. */
  lemma StaleCommitterAborts(evs: seq<Event>, r: Repo, t: nat, id: nat)
    requires Run(evs, r) && t in r.txs && id !in r.commits
    requires r.txs[t].parent != (if r.txs[t].key in r.refs then Some(r.refs[r.txs[t].key]) else None)
    ensures !Enabled(r, Finish(t, id))
  {
    RunInv(evs, r);
    if Lands(r, r.txs[t], t) && r.txs[t].parent.Some? { LandingReadsHead(r, t); }
  }

  lemma OnlyLandingsMove(r: Repo, e: Event, k: RefKey)
    requires Enabled(r, e) && k in r.refs && r.refs[k] in r.commits
    ensures k in Effect(r, e).refs
    ensures Effect(r, e).refs[k] != r.refs[k] <==> e.Finish? && r.txs[e.t].key == k
  {
    hide Merge, Release, Lands, Lookup, Ambiguous, TreeOf;
  }

  lemma {:induction false} RunUnique(evs: seq<Event>, a: Repo, b: Repo)
    requires Run(evs, a) && Run(evs, b)
    ensures a == b
    decreases |evs|
  {
    if evs != [] {
      hide Enabled, Effect;
      var n := |evs| - 1;
      var m :| Run(evs[..n], m) && Enabled(m, evs[n]) && a == Effect(m, evs[n]);
      var q :| Run(evs[..n], q) && Enabled(q, evs[n]) && b == Effect(q, evs[n]);
      RunUnique(evs[..n], m, q);
    }
  }

  ghost predicate Closes(e: Event, t: nat) {
    e == Abort(t) || (e.Finish? && e.t == t)
  }

  /** The transaction that is open now was requested by event `i`, when the repository was `m`. */
  ghost predicate OpenedAt(evs: seq<Event>, i: nat, t: nat, m: Repo) {
    && i < |evs| && Run(evs[..i], m) && Enabled(m, evs[i]) && evs[i].Begin? && evs[i].t == t
    && forall j :: i < j < |evs| ==> !Closes(evs[j], t)
  }

  lemma OthersLeaveOpen(r: Repo, e: Event, t: nat)
    requires Enabled(r, e) && t in r.txs && !Closes(e, t)
    ensures t in Effect(r, e).txs && Effect(r, e).txs[t] == r.txs[t]
  {
    hide Merge, Release, Lands, Lookup, Ambiguous, TreeOf;
  }

  lemma BeginOpens(r: Repo, e: Event)
    requires Enabled(r, e) && e.Begin?
    ensures e.t in Effect(r, e).txs && Effect(r, e).txs[e.t].key == Lookup(r.refs, e.mode, e.name)
  {
  }

  /** The key of an open transaction is what its request looked up. */
  lemma {:induction false} OpenedKey(evs: seq<Event>, r: Repo, i: nat, t: nat, m: Repo)
    requires Run(evs, r) && OpenedAt(evs, i, t, m)
    ensures t in r.txs && r.txs[t].key == Lookup(m.refs, evs[i].mode, evs[i].name)
    decreases |evs|
  {
    hide Enabled, Effect, Lookup, Closes;
    var n := |evs| - 1;
    var q :| Run(evs[..n], q) && Enabled(q, evs[n]) && r == Effect(q, evs[n]);
    if i == n {
      RunUnique(evs[..n], q, m);
      BeginOpens(m, evs[n]);
    } else {
      assert evs[..n][..i] == evs[..i];
      assert OpenedAt(evs[..n], i, t, m);
      OpenedKey(evs[..n], q, i, t, m);
      OthersLeaveOpen(q, evs[n], t);
    }
  }

  lemma NotClosed(r: Repo, e: Event, t: nat)
    requires Enabled(r, e) && t in Effect(r, e).txs && !(e.Begin? && e.t == t)
    ensures t in r.txs && !Closes(e, t)
  {
    hide Merge, Release, Lands, Lookup, Ambiguous, TreeOf;
  }

  /** Every open transaction was requested. */
  lemma {:induction false} WasOpened(evs: seq<Event>, r: Repo, t: nat) returns (i: nat, m: Repo)
    requires Run(evs, r) && t in r.txs
    ensures OpenedAt(evs, i, t, m)
    decreases |evs|
  {
    hide Enabled, Effect, Closes;
    var n := |evs| - 1;
    var q :| Run(evs[..n], q) && Enabled(q, evs[n]) && r == Effect(q, evs[n]);
    if evs[n].Begin? && evs[n].t == t {
      i, m := n, q;
    } else {
      NotClosed(q, evs[n], t);
      i, m := WasOpened(evs[..n], q, t);
      assert evs[..n][..i] == evs[..i];
    }
  }

  /**
   * The open transaction was requested from the router under the name of a tag, at a moment when
   * the tag existed and no branch of that name did.
   */
  ghost predicate AskedForTag(evs: seq<Event>, t: nat, name: string) {
    exists i: nat, m ::
      && OpenedAt(evs, i, t, m) && evs[i].mode != Step && evs[i].name == name
      && Tag(name) in m.refs && Branch(name) !in m.refs
  }

  lemma LookupTagIff(refs: map<RefKey, nat>, mode: Mode, asked: string, name: string)
    ensures Lookup(refs, mode, asked) == Tag(name)
       <==> mode != Step && asked == name && Tag(name) in refs && Branch(name) !in refs
  {
  }

  lemma TagKeyIff(evs: seq<Event>, r: Repo, t: nat, name: string)
    requires Run(evs, r) && t in r.txs
    ensures r.txs[t].key == Tag(name) <==> AskedForTag(evs, t, name)
  {
    hide Run, Enabled, Closes, Lookup;
    var i, m := WasOpened(evs, r, t);
    OpenedKey(evs, r, i, t, m);
    LookupTagIff(m.refs, evs[i].mode, evs[i].name, name);
    if AskedForTag(evs, t, name) {
      var j: nat, q :|
        && OpenedAt(evs, j, t, q) && evs[j].mode != Step && evs[j].name == name
        && Tag(name) in q.refs && Branch(name) !in q.refs;
      OpenedKey(evs, r, j, t, q);
      LookupTagIff(q.refs, evs[j].mode, evs[j].name, name);
    }
  }

  /**
   * A tag is promised to stay on its commit. An event moves it exactly when it lands a commit that
   * was requested from the router under the tag's name while no branch had that name.
   */
  lemma TagMovesIff(evs: seq<Event>, r: Repo, e: Event, name: string)
    requires Run(evs, r) && Enabled(r, e) && Tag(name) in r.refs
    ensures Effect(r, e).refs[Tag(name)] != r.refs[Tag(name)] <==> e.Finish? && AskedForTag(evs, e.t, name)
  {
    if e.Finish? { assert e.t in r.txs; }
    hide *;
    RunInv(evs, r);
    HeadIsCommit(r, Tag(name));
    OnlyLandingsMove(r, e, Tag(name));
    if e.Finish? { TagKeyIff(evs, r, e.t, name); }
  }

  /** Such a landing is possible as soon as a tag exists and no branch of its name does. */
  lemma RouterCanMoveTag(r: Repo, t: nat, id: nat, name: string, batch: Tree)
    requires Tag(name) in r.refs && Branch(name) !in r.refs && Tag(name) !in r.locks
    requires t !in r.txs && id !in r.commits
    ensures Enabled(r, Begin(t, FromSamples, name, batch))
    ensures var m := Effect(r, Begin(t, FromSamples, name, batch));
            Enabled(m, Finish(t, id)) && Effect(m, Finish(t, id)).refs[Tag(name)] == id
  {
  }

  // ---- Trees along a chain ----

  /** A parent chain from a root commit. */
  ghost predicate RootChain(commits: map<nat, Commit>, l: seq<nat>) {
    l != [] && Linked(commits, l) && commits[l[0]].parent.None?
  }

  /** Fold the batches of a chain, oldest first, by each commit's own merge rule. */
  ghost function FoldBatches(commits: map<nat, Commit>, l: seq<nat>): Tree
    requires forall i :: 0 <= i < |l| ==> l[i] in commits
  {
    if l == [] then map[]
    else
      var last := commits[l[|l| - 1]];
      Merge(last.mode, FoldBatches(commits, l[..|l| - 1]), last.batch)
  }

  /** Every commit's tree is the fold of its ancestry, never of anything else. */
  lemma {:induction false} TreeIsFold(r: Repo, l: seq<nat>)
    requires CommitsOk(r) && RootChain(r.commits, l)
    ensures r.commits[l[|l| - 1]].tree == FoldBatches(r.commits, l)
    decreases |l|
  {
    var n := |l| - 1;
    assert CommitOk(r.commits, l[n]);
    if n > 0 {
      assert RootChain(r.commits, l[..n]);
      TreeIsFold(r, l[..n]);
      assert r.commits[l[n]].parent == Some(l[n - 1]);
    } else {
      assert FoldBatches(r.commits, l[..0]) == map[];
    }
  }

  /** A step of the repository leaves the commits it had, and their chains, alone. */
  lemma ChainStays(r: Repo, e: Event, l: seq<nat>)
    requires Enabled(r, e) && RootChain(r.commits, l)
    ensures RootChain(Effect(r, e).commits, l)
  {
    hide Merge, Release, Lands, Lookup, Ambiguous;
  }

  /** The one way a commit appears: a landing adds it on top of the parent its transaction read. */
  lemma CommitAppears(r: Repo, e: Event, c: nat)
    requires Enabled(r, e) && c !in r.commits && c in Effect(r, e).commits
    ensures e.Finish? && e.t in r.txs && e.id == c
    ensures Effect(r, e).commits[c].parent == r.txs[e.t].parent
  {
    hide Merge, Release, Lands, Lookup, Ambiguous;
  }

  lemma ChainGrows(commits: map<nat, Commit>, l: seq<nat>, c: nat)
    requires RootChain(commits, l) && c in commits
    requires commits[c].parent == Some(l[|l| - 1])
    ensures RootChain(commits, l + [c])
  {
    LinkedGrows(commits, l, c);
  }

  lemma ParentExists(evs: seq<Event>, r: Repo, t: nat)
    requires Run(evs, r) && t in r.txs && r.txs[t].parent.Some?
    ensures r.txs[t].parent.value in r.commits
  {
    RunInv(evs, r);
    hide Run, HistoryOk, LocksOk, CommitOk;
  }

  lemma {:induction false} HasRootChain(evs: seq<Event>, r: Repo, c: nat) returns (l: seq<nat>)
    requires Run(evs, r) && c in r.commits
    ensures RootChain(r.commits, l) && l[|l| - 1] == c
    decreases |evs|
  {
    var n := |evs| - 1;
    var m :| Run(evs[..n], m) && Enabled(m, evs[n]) && r == Effect(m, evs[n]);
    hide Run, Enabled, Effect, Linked;
    if c in m.commits {
      l := HasRootChain(evs[..n], m, c);
      ChainStays(m, evs[n], l);
    } else {
      CommitAppears(m, evs[n], c);
      var parent := m.txs[evs[n].t].parent;
      if parent.Some? {
        ParentExists(evs[..n], m, evs[n].t);
        var front := HasRootChain(evs[..n], m, parent.value);
        ChainStays(m, evs[n], front);
        ChainGrows(r.commits, front, c);
        l := front + [c];
      } else {
        l := [c];
        LinkedAlone(r.commits, c);
      }
    }
  }

  /** The cumulative tree of every commit in every reachable repository. */
  lemma CumulativeTree(evs: seq<Event>, r: Repo, c: nat)
    requires Run(evs, r) && c in r.commits
    ensures exists l :: RootChain(r.commits, l) && l[|l| - 1] == c
                     && r.commits[c].tree == FoldBatches(r.commits, l)
  {
    RunInv(evs, r);
    var l := HasRootChain(evs, r, c);
    TreeIsFold(r, l);
  }

  /** `k` is the last commit of the chain whose batch names the sample. */
  ghost predicate LastNamed(commits: map<nat, Commit>, l: seq<nat>, s: Sample, k: nat)
    requires forall i :: 0 <= i < |l| ==> l[i] in commits
  {
    && k < |l| && s in commits[l[k]].batch
    && forall i :: k < i < |l| ==> s !in commits[l[i]].batch
  }

  /** No direct commit came since and, unless the pin has a revision, no workflow step either. */
  ghost predicate Survives(commits: map<nat, Commit>, l: seq<nat>, s: Sample, k: nat)
    requires (forall i :: 0 <= i < |l| ==> l[i] in commits) && LastNamed(commits, l, s, k)
  {
    forall i :: k < i < |l| ==>
      commits[l[i]].mode != Direct && (commits[l[k]].batch[s].rev.Some? || commits[l[i]].mode != Step)
  }

  lemma {:induction false} NeverNamed(commits: map<nat, Commit>, l: seq<nat>, s: Sample)
    requires (forall i :: 0 <= i < |l| ==> l[i] in commits)
    requires forall i :: 0 <= i < |l| ==> s !in commits[l[i]].batch
    ensures s !in FoldBatches(commits, l)
    decreases |l|
  {
    if l != [] {
      var n := |l| - 1;
      assert forall i :: 0 <= i < n ==> l[..n][i] == l[i];
      NeverNamed(commits, l[..n], s);
    }
  }

  /**
   * Batch wins, as a statement about one sample: on any chain of commits a sample that some batch
   * named is in the tree exactly if its last pin survived, and then it has that pin.
   */
  lemma {:induction false} LastBatchWins(commits: map<nat, Commit>, l: seq<nat>, s: Sample, k: nat)
    requires (forall i :: 0 <= i < |l| ==> l[i] in commits)
    requires LastNamed(commits, l, s, k)
    ensures s in FoldBatches(commits, l) <==> Survives(commits, l, s, k)
    ensures s in FoldBatches(commits, l) ==> FoldBatches(commits, l)[s] == commits[l[k]].batch[s]
    decreases |l|
  {
    var n := |l| - 1;
    if k < n {
      var front := l[..n];
      assert forall i :: 0 <= i < n ==> front[i] == l[i];
      assert LastNamed(commits, front, s, k);
      LastBatchWins(commits, front, s, k);
      assert Survives(commits, l, s, k) <==>
        && Survives(commits, front, s, k) && commits[l[n]].mode != Direct
        && (commits[l[k]].batch[s].rev.Some? || commits[l[n]].mode != Step);
    }
  }

  // ---- Diffs ----

  ghost function Removed(from_: Tree, to: Tree): set<Sample> {
    from_.Keys - to.Keys
  }

  /** Exactly what one commit removes from its parent, per committer. */
  lemma RemovedByOne(mode: Mode, parent: Tree, batch: Tree)
    ensures Removed(parent, Merge(mode, parent, batch))
      == match mode
         case Step => set s | s in parent && parent[s].rev.None? && s !in batch
         case FromSamples => {}
         case Direct => set s | s in parent && s !in batch
  {
  }

  /** On a stretch of from-samples commits nothing is ever removed. */
  lemma {:induction false} FromSamplesRemovesNothing(r: Repo, l: seq<nat>)
    requires CommitsOk(r) && l != [] && Linked(r.commits, l)
    requires forall i :: 0 < i < |l| ==> r.commits[l[i]].mode == FromSamples
    ensures Removed(r.commits[l[0]].tree, r.commits[l[|l| - 1]].tree) == {}
    decreases |l|
  {
    var n := |l| - 1;
    if n > 0 {
      assert Linked(r.commits, l[..n]);
      FromSamplesRemovesNothing(r, l[..n]);
      assert CommitOk(r.commits, l[n]);
      assert r.commits[l[n]].parent == Some(l[n - 1]);
    }
  }
}

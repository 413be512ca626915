/**
 * The queue of Kahn's algorithm is served in turn: when each node of a sorted list entered the queue,
 * and why a list that keeps the turns is the only one.
 */
module Turns {
  import opened Prelude
  import opened Graphs

  /** When a node entered: the place of the node whose processing let it in, and the edge, or the declared place. */
  datatype Turn = Turn(source: int, place: int)

  ghost predicate Before(a: Turn, b: Turn) {
    a.source < b.source || (a.source == b.source && a.place < b.place)
  }

  /**
   * Declared steps without incoming edges enter at the start. Any other node enters with its last
   * incoming edge, in the order in which the sources were processed and, for one source, of the edges.
   */
  ghost predicate Entered(ids: seq<Id>, edges: seq<Edge>, l: seq<Id>, x: Id, t: Turn) {
    if t.source < 0 then
      t.source == -1 && 0 <= t.place < |ids| && ids[t.place] == x && forall e :: e in edges ==> e.dst != x
    else
      && t.source < |l| && 0 <= t.place < |edges| && edges[t.place] == Edge(l[t.source], x)
      && forall m :: 0 <= m < |edges| && edges[m].dst == x ==>
           edges[m].src in l[..t.source] || (edges[m].src == l[t.source] && m <= t.place)
  }

  /** The nodes of `all` entered the queue in this order while `l` was processed. */
  ghost predicate InTurn(ids: seq<Id>, edges: seq<Edge>, l: seq<Id>, all: seq<Id>, turns: seq<Turn>) {
    && |turns| == |all|
    && (forall i :: 0 <= i < |all| ==> Entered(ids, edges, l, all[i], turns[i]))
    && forall i, j :: 0 <= i < j < |all| ==> Before(turns[i], turns[j])
  }

  /** The list is in the order in which its nodes entered the queue. */
  ghost predicate Fifo(ids: seq<Id>, edges: seq<Edge>, l: seq<Id>) {
    exists turns :: InTurn(ids, edges, l, l, turns)
  }

  // ---- Building it ----

  /** The places of the edges that leave `u`. */
  ghost function Out(edges: seq<Edge>, u: Id): (places: seq<nat>)
    ensures forall k :: 0 <= k < |places| ==> places[k] < |edges| && edges[places[k]].src == u
    ensures forall j, k :: 0 <= j < k < |places| ==> places[j] < places[k]
    ensures forall m :: 0 <= m < |edges| && edges[m].src == u ==> m in places
  {
    if edges == [] then []
    else
      var n := |edges| - 1;
      Out(edges[..n], u) + if edges[n].src == u then [n] else []
  }

  lemma EnteredLater(ids: seq<Id>, edges: seq<Edge>, l: seq<Id>, x: Id, t: Turn, node: Id)
    requires Entered(ids, edges, l, x, t)
    ensures Entered(ids, edges, l + [node], x, t)
  {
    if t.source >= 0 { assert (l + [node])[..t.source] == l[..t.source]; }
  }

  /** Processing one more node changes no turn. */
  lemma TurnsStay(ids: seq<Id>, edges: seq<Edge>, l: seq<Id>, all: seq<Id>, turns: seq<Turn>, node: Id)
    requires InTurn(ids, edges, l, all, turns)
    ensures InTurn(ids, edges, l + [node], all, turns)
  {
    hide Entered, Before;
    forall i | 0 <= i < |all| ensures Entered(ids, edges, l + [node], all[i], turns[i]) {
      EnteredLater(ids, edges, l, all[i], turns[i], node);
    }
  }

  /** All turns so far come before the outgoing edges of the node at the end, from edge `k` on. */
  ghost predicate Earlier(edges: seq<Edge>, l: seq<Id>, turns: seq<Turn>, k: nat)
    requires l != []
  {
    var out := Out(edges, l[|l| - 1]);
    forall i, j :: 0 <= i < |turns| && k <= j < |out| ==> Before(turns[i], Turn(|l| - 1, out[j]))
  }

  lemma OldTurnsEarlier(ids: seq<Id>, edges: seq<Edge>, l: seq<Id>, all: seq<Id>, turns: seq<Turn>, node: Id)
    requires InTurn(ids, edges, l, all, turns)
    ensures Earlier(edges, l + [node], turns, 0)
  {
    forall i | 0 <= i < |turns| ensures turns[i].source < |l| {
      assert Entered(ids, edges, l, all[i], turns[i]);
    }
  }

  lemma SkipTurn(edges: seq<Edge>, l: seq<Id>, turns: seq<Turn>, k: nat)
    requires l != [] && Earlier(edges, l, turns, k)
    ensures Earlier(edges, l, turns, k + 1)
  {
  }

  /** The node that edge `k` lets in gets the next turn. */
  lemma TakeTurn(ids: seq<Id>, edges: seq<Edge>, l: seq<Id>, all: seq<Id>, turns: seq<Turn>, k: nat, x: Id)
    requires l != [] && InTurn(ids, edges, l, all, turns) && Earlier(edges, l, turns, k)
    requires var out := Out(edges, l[|l| - 1]); k < |out| && edges[out[k]].dst == x && Last(edges, l, out[k], x)
    ensures var t := Turn(|l| - 1, Out(edges, l[|l| - 1])[k]);
      InTurn(ids, edges, l, all + [x], turns + [t]) && Earlier(edges, l, turns + [t], k + 1)
  {
    var t := Turn(|l| - 1, Out(edges, l[|l| - 1])[k]);
    LastEnters(ids, edges, l, x, t);
    hide Entered, Last;
    assert forall i :: 0 <= i < |turns| ==> Before(turns[i], t);
  }

  /** Of the edges into `x`, the one at place `m` is the last to be taken. */
  ghost predicate Last(edges: seq<Edge>, l: seq<Id>, m: nat, x: Id)
    requires l != []
  {
    forall e :: 0 <= e < |edges| && edges[e].dst == x ==>
      edges[e].src in l[..|l| - 1] || (edges[e].src == l[|l| - 1] && e <= m)
  }

  lemma LastEnters(ids: seq<Id>, edges: seq<Edge>, l: seq<Id>, x: Id, t: Turn)
    requires l != [] && t.source == |l| - 1 && 0 <= t.place < |edges| && edges[t.place] == Edge(l[|l| - 1], x)
    requires Last(edges, l, t.place, x)
    ensures Entered(ids, edges, l, x, t)
  {
  }

  // ---- There is one such list ----

  /** The place of an incoming edge's source is never behind the turn. */
  lemma SourceNotLater(ids: seq<Id>, edges: seq<Edge>, l: seq<Id>, x: Id, t: Turn, k: nat, m: nat)
    requires NoDup(l) && Entered(ids, edges, l, x, t) && t.source >= 0
    requires k < |l| && m < |edges| && edges[m] == Edge(l[k], x)
    ensures k < t.source || (k == t.source && m <= t.place)
  {
    if l[k] in l[..t.source] {
      var j :| 0 <= j < t.source && l[j] == l[k];
    }
  }

  /** What came before determines the turn. */
  lemma TurnUnique(ids: seq<Id>, edges: seq<Edge>, l: seq<Id>, l': seq<Id>, n: nat, x: Id, t: Turn, t': Turn)
    requires NoDup(ids) && NoDup(l) && NoDup(l') && n <= |l| && n <= |l'| && l[..n] == l'[..n]
    requires Entered(ids, edges, l, x, t) && Entered(ids, edges, l', x, t') && t.source < n && t'.source < n
    ensures t == t'
  {
    if t.source >= 0 {
      assert edges[t.place] in edges;
      assert l[..n][t.source] == l'[..n][t.source] && l[..n][t'.source] == l'[..n][t'.source];
      SourceNotLater(ids, edges, l', x, t', t.source, t.place);
      SourceNotLater(ids, edges, l, x, t, t'.source, t'.place);
    }
  }

  /** A node's turn comes from a node before it. */
  lemma TurnFromBefore(ids: seq<Id>, edges: seq<Edge>, l: seq<Id>, n: nat, x: Id, t: Turn)
    requires NoDup(l) && n <= |l| && Entered(ids, edges, l, x, t) && PredsIn(edges, x, l[..n])
    ensures t.source < n
  {
    if t.source >= 0 {
      assert edges[t.place] in edges && l[t.source] in l[..n];
      var j :| 0 <= j < n && l[j] == l[t.source];
    }
  }

  /** Two lists that agree before place `k` have the same node there. */
  lemma SameNode(ids: seq<Id>, edges: seq<Edge>, l: seq<Id>, l': seq<Id>, turns: seq<Turn>, turns': seq<Turn>,
                 k: nat, i: nat, j: nat)
    requires NoDup(ids) && KahnOrder(ids, edges, l) && KahnOrder(ids, edges, l')
    requires InTurn(ids, edges, l, l, turns) && InTurn(ids, edges, l', l', turns')
    requires k <= i < |l'| && k <= j < |l| && l[..k] == l'[..k] && l'[i] == l[k] && l[j] == l'[k]
    ensures l[k] == l'[k]
  {
    TurnAgain(ids, edges, l, l', turns, turns', k, i);
    TurnAgain(ids, edges, l', l, turns', turns, k, j);
    hide Entered, KahnOrder;
    assert j > k ==> Before(turns[k], turns[j]);
    assert i > k ==> Before(turns'[k], turns'[i]);
  }

  lemma TurnAgain(ids: seq<Id>, edges: seq<Edge>, l: seq<Id>, l': seq<Id>, turns: seq<Turn>, turns': seq<Turn>,
                  k: nat, i: nat)
    requires NoDup(ids) && KahnOrder(ids, edges, l) && KahnOrder(ids, edges, l')
    requires InTurn(ids, edges, l, l, turns) && InTurn(ids, edges, l', l', turns')
    requires k < |l| && k <= i < |l'| && l[..k] == l'[..k] && l'[i] == l[k]
    ensures turns[k] == turns'[i]
  {
    assert PredsIn(edges, l[k], l[..k]);
    assert Entered(ids, edges, l, l[k], turns[k]) && Entered(ids, edges, l', l'[i], turns'[i]);
    hide PredsIn, InTurn, Entered;
    TurnFromBefore(ids, edges, l, k, l[k], turns[k]);
    TurnFromBefore(ids, edges, l', k, l[k], turns'[i]);
    TurnUnique(ids, edges, l, l', k, l[k], turns[k], turns'[i]);
  }

  lemma PlaceBehind(l: seq<Id>, l': seq<Id>, k: nat) returns (i: nat)
    requires NoDup(l) && k < |l| && k <= |l'| && l[..k] == l'[..k] && l[k] in l'
    ensures k <= i < |l'| && l'[i] == l[k]
  {
    assert forall m :: 0 <= m < k ==> l[..k][m] == l[m] && l'[..k][m] == l'[m] && l[m] != l[k];
    i :| i < |l'| && l'[i] == l[k];
  }

  lemma SameNext(ids: seq<Id>, edges: seq<Edge>, l: seq<Id>, l': seq<Id>, turns: seq<Turn>, turns': seq<Turn>, k: nat)
    requires NoDup(ids) && KahnOrder(ids, edges, l) && KahnOrder(ids, edges, l') && k < |l| && |l| == |l'|
    requires InTurn(ids, edges, l, l, turns) && InTurn(ids, edges, l', l', turns') && l[..k] == l'[..k]
    ensures l[k] == l'[k]
  {
    KahnOrdersAgree(ids, edges, l, l');
    assert NoDup(l) && NoDup(l');
    hide InTurn, KahnOrder;
    var i := PlaceBehind(l, l', k);
    var j := PlaceBehind(l', l, k);
    hide NoDup;
    SameNode(ids, edges, l, l', turns, turns', k, i, j);
  }

  lemma {:induction false} SameUpTo(ids: seq<Id>, edges: seq<Edge>, l: seq<Id>, l': seq<Id>, turns: seq<Turn>,
                                    turns': seq<Turn>, n: nat)
    requires NoDup(ids) && KahnOrder(ids, edges, l) && KahnOrder(ids, edges, l') && n <= |l| && |l| == |l'|
    requires InTurn(ids, edges, l, l, turns) && InTurn(ids, edges, l', l', turns')
    ensures l[..n] == l'[..n]
  {
    hide InTurn, KahnOrder, NoDup;
    if n > 0 {
      SameUpTo(ids, edges, l, l', turns, turns', n - 1);
      SameNext(ids, edges, l, l', turns, turns', n - 1);
      assert l[..n] == l[..n - 1] + [l[n - 1]] && l'[..n] == l'[..n - 1] + [l'[n - 1]];
    }
  }

  /** A maximal order that keeps the turns is unique: the sort's answer is determined. */
  lemma FifoUnique(ids: seq<Id>, edges: seq<Edge>, l: seq<Id>, l': seq<Id>)
    requires NoDup(ids) && KahnOrder(ids, edges, l) && KahnOrder(ids, edges, l')
    requires Fifo(ids, edges, l) && Fifo(ids, edges, l')
    ensures l == l'
  {
    var turns :| InTurn(ids, edges, l, l, turns);
    var turns' :| InTurn(ids, edges, l', l', turns');
    KahnSizesAgree(ids, edges, l, l');
    hide InTurn, KahnOrder;
    SameUpTo(ids, edges, l, l', turns, turns', |l|);
    assert l[..|l|] == l && l'[..|l'|] == l';
  }
}

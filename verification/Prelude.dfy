/** Small shared vocabulary: optional and fallible results, and facts about sequences. */
module Prelude {

  datatype Option<+T> = None | Some(value: T)

  datatype Result<+T> = Ok(value: T) | Err

  predicate NoDup<T(==)>(s: seq<T>) {
    forall i, j :: 0 <= i < j < |s| ==> s[i] != s[j]
  }

  ghost function Elements<T>(s: seq<T>): set<T> {
    set x | x in s
  }

  /** The two sequences have the same elements, each exactly once. */
  ghost predicate Permutation<T(!new)>(s: seq<T>, t: seq<T>) {
    && NoDup(s) && NoDup(t)
    && forall x :: x in s <==> x in t
  }

  lemma {:induction false} NoDupCardinality<T>(s: seq<T>)
    requires NoDup(s)
    ensures |Elements(s)| == |s|
  {
    if s == [] {
      assert Elements(s) == {};
    } else {
      var last := |s| - 1;
      NoDupCardinality(s[..last]);
      assert s == s[..last] + [s[last]];
      assert Elements(s) == Elements(s[..last]) + {s[last]};
    }
  }

  lemma {:induction false} ElementsBound<T>(s: seq<T>)
    ensures |Elements(s)| <= |s|
  {
    if s == [] {
      assert Elements(s) == {};
    } else {
      var last := |s| - 1;
      ElementsBound(s[..last]);
      assert s == s[..last] + [s[last]];
      assert Elements(s) == Elements(s[..last]) + {s[last]};
    }
  }

  /** A sequence with as many elements as places repeats none. */
  lemma {:induction false} FullSizeMeansNoDup<T>(s: seq<T>)
    requires |Elements(s)| == |s|
    ensures NoDup(s)
  {
    if s != [] {
      var last := |s| - 1;
      var front := s[..last];
      assert s == front + [s[last]];
      assert Elements(s) == Elements(front) + {s[last]};
      ElementsBound(front);
      FullSizeMeansNoDup(front);
      assert s[last] !in Elements(front);
      forall i, j | 0 <= i < j < |s| ensures s[i] != s[j] {
        assert s[i] == front[i] && front[i] in Elements(front);
        if j < last { assert s[j] == front[j]; }
      }
    }
  }

  lemma SubsetCardinality<T>(a: set<T>, b: set<T>)
    requires a <= b
    ensures |a| <= |b|
    ensures |a| == |b| ==> a == b
  {
    assert b == a + (b - a);
  }

  /** Sets that differ at most in `d` have sizes that differ by its membership. */
  lemma SizesDiffer<T>(a: set<T>, b: set<T>, d: T)
    requires a - {d} == b - {d}
    ensures |a| - (if d in a then 1 else 0) == |b| - (if d in b then 1 else 0)
  {
    assert a == (a - {d}) + if d in a then {d} else {};
    assert b == (b - {d}) + if d in b then {d} else {};
  }

  /** Pigeonhole: a sequence drawn from `pool` that is longer than `pool` repeats an element. */
  lemma Pigeonhole<T>(s: seq<T>, pool: seq<T>)
    requires NoDup(pool) && |s| > |pool|
    requires forall x :: x in s ==> x in pool
    ensures exists i, j :: 0 <= i < j < |s| && s[i] == s[j]
  {
    if NoDup(s) {
      NoDupCardinality(s);
      NoDupCardinality(pool);
      SubsetCardinality(Elements(s), Elements(pool));
    }
  }

  /** Two duplicate-free sequences of one length, one inside the other, are permutations. */
  lemma EqualLengthPermutation<T(!new)>(s: seq<T>, t: seq<T>)
    requires NoDup(s) && NoDup(t) && |s| == |t|
    requires forall x :: x in s ==> x in t
    ensures Permutation(s, t)
  {
    NoDupCardinality(s);
    NoDupCardinality(t);
    SubsetCardinality(Elements(s), Elements(t));
    forall x | x in t ensures x in s {
      assert x in Elements(t);
    }
  }

  lemma Regroup<T>(a: seq<T>, b: seq<T>, c: seq<T>)
    ensures (a + b) + c == a + (b + c)
  {
  }

  lemma SumTail<T>(a: seq<T>, b: seq<T>)
    requires a != []
    ensures a + b != [] && (a + b)[0] == a[0] && (a + b)[1..] == a[1..] + b
  {
  }

  /** A bound above any finite set of numbers. */
  lemma {:induction false} Above(used: set<nat>) returns (bound: nat)
    ensures forall r :: r in used ==> r < bound
    decreases used
  {
    if used == {} {
      bound := 0;
    } else {
      var r :| r in used;
      var rest := Above(used - {r});
      bound := if rest > r then rest else r + 1;
      assert forall q :: q in used ==> q == r || q in used - {r};
    }
  }
}

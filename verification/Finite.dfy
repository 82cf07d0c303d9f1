/** Finitely many numbers: distinct ones are few, and a walk among them that goes on long enough goes on forever. */
module Finite {
  import opened Options

  ghost predicate Distinct(s: seq<nat>) { forall i, j :: 0 <= i < j < |s| ==> s[i] != s[j] }

  function FirstNats(n: nat): (r: set<nat>)
    ensures |r| == n && forall i :: i in r <==> 0 <= i < n
  {
    if n == 0 then {} else FirstNats(n - 1) + {n - 1}
  }

  function Elems(s: seq<nat>): (r: set<nat>)
    ensures forall c :: c in r <==> c in s
  {
    set c | c in s
  }

  lemma {:induction false} ElemsSize(s: seq<nat>)
    requires Distinct(s)
    ensures |Elems(s)| == |s|
  {
    if s != [] {
      var t, c := s[..|s| - 1], s[|s| - 1];
      assert s == t + [c];
      ElemsSize(t);
      assert Elems(s) == Elems(t) + {c};
    }
  }

  /** Distinct numbers below a bound: there are no more of them than the bound. */
  lemma {:induction false} DistinctShort(s: seq<nat>, bound: nat)
    requires Distinct(s) && forall i :: 0 <= i < |s| ==> s[i] < bound
    ensures |s| <= bound
  {
    ElemsSize(s);
    SubsetSize(Elems(s), FirstNats(bound));
  }

  lemma {:induction false} SubsetSize(a: set<nat>, b: set<nat>)
    requires a <= b
    ensures |a| <= |b|
  {
    assert b == a + (b - a);
  }

  /** Where a walk is after k steps, if it has not ended. */
  ghost function Orbit(step: nat -> Option<nat>, x: nat, k: nat): Option<nat>
    decreases k
  {
    if k == 0 then Some(x)
    else
      match step(x)
      case None => None
      case Some(y) => Orbit(step, y, k - 1)
  }

  lemma {:induction false} OrbitAdd(step: nat -> Option<nat>, x: nat, j: nat, k: nat)
    ensures Orbit(step, x, j + k) == if Orbit(step, x, j).None? then None else Orbit(step, Orbit(step, x, j).value, k)
    decreases j
  {
    if j > 0 && step(x).Some? {
      OrbitAdd(step, step(x).value, j - 1, k);
    }
  }

  /** A walk that comes back to a place never ends. */
  lemma {:induction false} OrbitRepeats(step: nat -> Option<nat>, x: nat, i: nat, j: nat, k: nat)
    requires i < j && Orbit(step, x, i).Some? && Orbit(step, x, i) == Orbit(step, x, j)
    ensures Orbit(step, x, k).Some?
    decreases k
  {
    if k <= j {
      OrbitAdd(step, x, k, j - k);
    } else {
      OrbitAdd(step, x, j, k - j);
      OrbitAdd(step, x, i, k - j);
      OrbitRepeats(step, x, i, j, i + (k - j));
    }
  }

  /** A walk among n numbers that makes n steps never ends. */
  lemma {:induction false} OrbitBound(step: nat -> Option<nat>, n: nat, x: nat, k: nat)
    requires x < n && forall y :: step(y).Some? ==> step(y).value < n
    requires Orbit(step, x, n).Some?
    ensures Orbit(step, x, k).Some?
  {
    forall i | 0 <= i <= n
      ensures Orbit(step, x, i).Some? && Orbit(step, x, i).value < n
    {
      OrbitAdd(step, x, i, n - i);
      OrbitStays(step, n, x, i);
    }
    var places := seq(n + 1, i requires 0 <= i <= n => Orbit(step, x, i).value);
    if Distinct(places) {
      DistinctShort(places, n);
    }
    var i, j :| 0 <= i < j < |places| && places[i] == places[j];
    OrbitRepeats(step, x, i, j, k);
  }

  lemma {:induction false} OrbitStays(step: nat -> Option<nat>, n: nat, x: nat, k: nat)
    requires x < n && forall y :: step(y).Some? ==> step(y).value < n
    ensures Orbit(step, x, k).Some? ==> Orbit(step, x, k).value < n
    decreases k
  {
    if k > 0 && step(x).Some? {
      OrbitStays(step, n, step(x).value, k - 1);
    }
  }
}

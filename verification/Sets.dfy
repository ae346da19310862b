/** Counting with finite sets of numbers. */
module Sets {

  /** The numbers below `n`. */
  ghost function Below(n: nat): (r: set<nat>)
    ensures |r| == n && forall x: nat :: x in r <==> x < n
  {
    if n == 0 then {} else Below(n - 1) + {n - 1}
  }

  predicate NoDup(q: seq<nat>) {
    forall i, j :: 0 <= i < j < |q| ==> q[i] != q[j]
  }

  /** The elements of a sequence without repetition, as many as its length. */
  ghost function Elements(q: seq<nat>): (r: set<nat>)
    requires NoDup(q)
    ensures |r| == |q| && forall x :: x in r <==> x in q
  {
    if q == [] then {} else Elements(q[1..]) + {q[0]}
  }

  lemma {:induction false} SubsetSize(a: set<nat>, b: set<nat>)
    requires a <= b
    ensures |a| <= |b|
    decreases a
  {
    if a != {} {
      var x :| x in a;
      SubsetSize(a - {x}, b - {x});
    }
  }

  /** A sequence without repetition of exactly the numbers below `n` has length `n`. */
  lemma Exhausts(q: seq<nat>, n: nat)
    requires NoDup(q)
    requires forall x: nat :: x in q <==> x < n
    ensures |q| == n
  {
    assert Elements(q) == Below(n);
  }
}

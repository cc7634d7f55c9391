/** Counting the elements of sequences, used to turn "distinct and among" into a bound. */
module Counting {
  function Elems(q: seq<nat>): set<nat> {
    set x | x in q
  }

  ghost predicate Distinct(q: seq<nat>) {
    forall i, j :: 0 <= i < j < |q| ==> q[i] != q[j]
  }

  lemma {:induction false} ElemsSize(q: seq<nat>)
    ensures |Elems(q)| <= |q|
    ensures Distinct(q) ==> |Elems(q)| == |q|
  {
    if q != [] {
      var front, last := q[..|q| - 1], q[|q| - 1];
      ElemsSize(front);
      assert q == front + [last];
      assert Elems(q) == Elems(front) + {last};
    }
  }

  lemma SubsetSize(a: set<nat>, b: set<nat>)
    requires a <= b
    ensures |a| <= |b|
  {
    assert b == a + (b - a);
  }

  /** A list without repetition splits into a list without repetition and two sets, all disjoint. */
  lemma PartitionSize(whole: seq<nat>, part: seq<nat>, a: set<nat>, b: set<nat>)
    requires Distinct(whole) && Distinct(part) && a !! b
    requires forall x :: x in part || x in a || x in b <==> x in whole
    requires forall x :: x in part ==> x !in a && x !in b
    ensures |whole| == |part| + |a| + |b|
  {
    ElemsSize(whole);
    ElemsSize(part);
    assert Elems(whole) == Elems(part) + a + b;
  }

  /** Distinct elements that all occur among the first k entries number at most k. */
  lemma DistinctAmongFirst(q: seq<nat>, among: seq<nat>, k: nat)
    requires Distinct(q)
    requires forall x :: x in q ==> exists i :: 0 <= i < |among| && i < k && among[i] == x
    ensures |q| <= k && |q| <= |among|
  {
    var m := if k < |among| then k else |among|;
    ElemsSize(q);
    ElemsSize(among[..m]);
    forall x | x in q ensures x in among[..m] {
      var i :| 0 <= i < |among| && i < k && among[i] == x;
      assert among[..m][i] == x;
    }
    SubsetSize(Elems(q), Elems(among[..m]));
  }

  ghost function Fresh(used: set<nat>): (n: nat)
    ensures n !in used
  {
    FreshExists(used);
    var n: nat :| n !in used;
    n
  }

  lemma FreshExists(used: set<nat>)
    ensures exists n: nat :: n !in used
  {
    var n := FreshNumber(used);
  }

  lemma {:induction false} FreshNumber(used: set<nat>) returns (n: nat)
    ensures n !in used
    ensures forall x :: x in used ==> x < n
  {
    if used == {} {
      n := 0;
    } else {
      var y :| y in used;
      var m := FreshNumber(used - {y});
      n := if m > y then m else y + 1;
      forall x | x in used ensures x < n {
        assert x == y || x in used - {y};
      }
    }
  }
}

/** Counting the used slots of a table by the keys that occupy them. */
module Counting {

  lemma {:induction false} CardinalityOfSubset<T>(a: set<T>, b: set<T>)
    requires a <= b
    ensures |a| <= |b|
  {
    if a != {} {
      var x :| x in a;
      CardinalityOfSubset(a - {x}, b - {x});
    }
  }

  ghost predicate Injective<K>(at: map<K, nat>) {
    forall k, l :: k in at && l in at && k != l ==> at[k] != at[l]
  }

  ghost function Image<K>(keys: set<K>, at: map<K, nat>): set<nat>
    requires keys <= at.Keys
  {
    set k | k in keys :: at[k]
  }

  lemma {:induction false} CountImage<K>(keys: set<K>, at: map<K, nat>)
    requires Injective(at) && keys <= at.Keys
    ensures |Image(keys, at)| == |keys|
  {
    if keys != {} {
      var k :| k in keys;
      CountImage(keys - {k}, at);
      assert Image(keys, at) == Image(keys - {k}, at) + {at[k]};
    }
  }

  ghost function Indices(n: nat): (r: set<nat>)
    ensures |r| == n
    ensures forall i: nat :: i in r <==> i < n
  {
    if n == 0 then {} else Indices(n - 1) + {n - 1}
  }

  lemma SubsetOfIndices(used: set<nat>, n: nat)
    requires forall i :: i in used ==> i < n
    ensures |used| <= n
    ensures |used| < n <==> exists i: nat :: i < n && i !in used
  {
    var free := Indices(n) - used;
    assert Indices(n) == free + used;
    if free != {} {
      var i :| i in free;
    }
    if i: nat :| i < n && i !in used {
      assert i in free;
    }
  }
}

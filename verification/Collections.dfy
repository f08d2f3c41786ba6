/** Finite sets, sequences and maps. */
module Collections {
  /** A key that is already bound keeps its value. */
  function PutIfAbsent<V>(q: map<nat, V>, id: nat, v: V): map<nat, V> {
    if id in q then q else q[id := v]
  }

  function Drop<V>(q: map<nat, V>, id: nat): map<nat, V> {
    q - {id}
  }

  ghost predicate IsMin(ids: set<nat>, id: nat) {
    id in ids && forall k :: k in ids ==> id <= k
  }

  lemma MinExists(ids: set<nat>)
    requires ids != {}
    ensures exists id :: IsMin(ids, id)
    decreases ids
  {
    var x :| x in ids;
    if ids != {x} {
      MinExists(ids - {x});
      var m :| IsMin(ids - {x}, m);
      assert forall k | k in ids :: k == x || k in ids - {x};
      assert IsMin(ids, if m < x then m else x);
    } else {
      assert IsMin(ids, x);
    }
  }

  ghost function Min(ids: set<nat>): (id: nat)
    requires ids != {}
    ensures IsMin(ids, id)
  {
    MinExists(ids);
    var id :| IsMin(ids, id);
    id
  }

  function Interval(lo: nat, hi: nat): (r: set<nat>)
    requires lo <= hi
    ensures forall i :: i in r <==> lo <= i < hi
    ensures |r| == hi - lo
    decreases hi - lo
  {
    if lo == hi then {} else Interval(lo, hi - 1) + {hi - 1}
  }

  lemma SubsetSize<T>(a: set<T>, b: set<T>)
    requires a <= b
    ensures |a| <= |b|
  {
    assert b == a + (b - a);
  }

  function Insert<T>(s: seq<T>, p: nat, x: T): (r: seq<T>)
    requires p <= |s|
    ensures |r| == |s| + 1
  {
    s[..p] + [x] + s[p..]
  }

  lemma InsertAt<T>(s: seq<T>, p: nat, x: T, i: nat)
    requires p <= |s| && i <= |s|
    ensures Insert(s, p, x)[i] == if i < p then s[i] else if i == p then x else s[i - 1]
  {
  }

  function Without<T>(s: seq<T>, i: nat): (r: seq<T>)
    requires i < |s|
    ensures |r| == |s| - 1
  {
    s[..i] + s[i + 1..]
  }

  lemma WithoutAt<T>(s: seq<T>, p: nat, i: nat)
    requires p < |s| && i < |s| - 1
    ensures Without(s, p)[i] == if i < p then s[i] else s[i + 1]
  {
  }

  lemma WithoutOne<T>(s: seq<T>, i: nat)
    requires i < |s|
    ensures multiset(s) == multiset(Without(s, i)) + multiset{s[i]}
  {
    assert s == s[..i] + [s[i]] + s[i + 1..];
  }
}

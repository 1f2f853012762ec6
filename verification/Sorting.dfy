/**
 Sorting by a caller's comparison. The cycle search sorts its roots and each
 neighbour list before walking them, so that its diagnostics are stable.
 */
module Sorting {

  /** What a comparison handed to the library sort must be. */
  ghost predicate TotalOrder<V(!new)>(leq: (V, V) -> bool) {
    && (forall x, y :: leq(x, y) || leq(y, x))
    && (forall x, y :: leq(x, y) && leq(y, x) ==> x == y)
    && (forall x, y, z :: leq(x, y) && leq(y, z) ==> leq(x, z))
  }

  ghost predicate Sorted<V>(leq: (V, V) -> bool, s: seq<V>) {
    forall i, j :: 0 <= i < j < |s| ==> leq(s[i], s[j])
  }

  function Insert<V>(leq: (V, V) -> bool, x: V, s: seq<V>): (r: seq<V>)
    ensures multiset(r) == multiset(s) + multiset{x}
  {
    if s == [] then [x]
    else if leq(x, s[0]) then [x] + s
    else
      assert s == [s[0]] + s[1..];
      [s[0]] + Insert(leq, x, s[1..])
  }

  function SortBy<V>(leq: (V, V) -> bool, s: seq<V>): (r: seq<V>)
    ensures multiset(r) == multiset(s)
  {
    if s == [] then []
    else
      assert s == [s[0]] + s[1..];
      Insert(leq, s[0], SortBy(leq, s[1..]))
  }

  lemma SameElements<V>(s: seq<V>, t: seq<V>)
    requires multiset(s) == multiset(t)
    ensures |s| == |t|
    ensures forall x :: x in s <==> x in t
  {
    assert |multiset(s)| == |s| && |multiset(t)| == |t|;
    forall x ensures x in s <==> x in t {
      assert x in s <==> x in multiset(s);
      assert x in t <==> x in multiset(t);
    }
  }

  lemma {:induction false} InsertSorted<V(!new)>(leq: (V, V) -> bool, x: V, s: seq<V>)
    requires TotalOrder(leq) && Sorted(leq, s)
    ensures Sorted(leq, Insert(leq, x, s))
  {
    if s != [] && !leq(x, s[0]) {
      InsertSorted(leq, x, s[1..]);
      var t := Insert(leq, x, s[1..]);
      SameElements(t, s[1..] + [x]);
      forall j | 0 <= j < |t| ensures leq(s[0], t[j]) {
        assert t[j] in s[1..] + [x];
      }
    }
  }

  lemma {:induction false} SortBySorted<V(!new)>(leq: (V, V) -> bool, s: seq<V>)
    requires TotalOrder(leq)
    ensures Sorted(leq, SortBy(leq, s))
  {
    if s != [] {
      SortBySorted(leq, s[1..]);
      InsertSorted(leq, s[0], SortBy(leq, s[1..]));
    }
  }
}

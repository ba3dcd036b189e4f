/** Facts about sets and sequences that several modules use. */
module Collections {

  /** A member of a non-empty set, as a witness for choosing one. */
  lemma Member<T(!new, 0)>(s: set<T>) returns (x: T)
    ensures s != {} ==> x in s
  {
    if y :| y in s {
      x := y;
    } else {
      assert s == {};
      x := *;
    }
  }

  lemma {:induction false} SubsetSize<T(!new, 0)>(a: set<T>, b: set<T>)
    requires a <= b
    ensures |a| <= |b|
  {
    if a != {} {
      var x := Member(a);
      SubsetSize(a - {x}, b - {x});
    }
  }

  /** A finite set can be listed. */
  lemma {:induction false} ListingExists<T(!new, 0)>(s: set<T>) returns (l: seq<T>)
    ensures forall x :: x in s ==> x in l
    ensures forall i :: 0 <= i < |l| ==> l[i] in s
    ensures forall i, j :: 0 <= i < j < |l| ==> l[i] != l[j]
    decreases |s|
  {
    if s == {} {
      l := [];
    } else {
      var x := Member(s);
      var rest := ListingExists(s - {x});
      l := [x] + rest;
    }
  }

  lemma OnlyKey<K(!new, 0), V(!new)>(m: map<K, V>, k: K)
    ensures |m - {k}| == 0 ==> forall j :: j in m ==> j == k
  {
    forall j | j in m && j != k ensures |m - {k}| > 0 {
      SubsetSize({j}, (m - {k}).Keys);
    }
  }

  lemma Restore<K(!new), V(!new)>(m: map<K, V>, k: K)
    requires k in m
    ensures m == (m - {k})[k := m[k]]
  {
  }

  /** A set of integers is a subset when its members are. */
  lemma {:induction false} SubsetByMembers(a: set<int>, b: set<int>)
    requires forall k :: k in a ==> k in b
    ensures a <= b
    decreases |a|
  {
    if a != {} {
      var x := Member(a);
      SubsetByMembers(a - {x}, b);
      assert a == (a - {x}) + {x};
    }
  }

  /** Maps from integers are equal when they agree at every key. */
  lemma {:induction false} SameMap<V(!new)>(a: map<int, V>, b: map<int, V>)
    requires forall k :: k in a ==> k in b && a[k] == b[k]
    requires forall k :: k in b ==> k in a
    ensures a == b
    decreases |a|
  {
    SubsetByMembers(a.Keys, b.Keys);
    SubsetByMembers(b.Keys, a.Keys);
    if a.Keys != {} {
      var x := Member(a.Keys);
      Restore(a, x);
      Restore(b, x);
      SameMap(a - {x}, b - {x});
    } else {
      assert a == map[] && b == map[];
    }
  }
}

/** Small facts about sets, maps and sequences that several components need. */
module Collections {

  predicate Distinct(s: seq<nat>) { forall a, b :: 0 <= a < b < |s| ==> s[a] != s[b] }

  lemma SomeMember(s: set<int>)
    ensures (forall x :: x !in s) ==> s == {}
  {
    if forall x :: x !in s {
      assert s == {};
    }
  }

  lemma MinusTwice<T>(m: map<int, T>, s: set<int>, x: int)
    ensures m - s - {x} == m - (s + {x})
  {
  }

  /** A map after one key was given a value. */
  lemma Updated<T>(m: map<int, T>, key: int, x: T)
    ensures key in m ==> |m[key := x]| == |m| && m[key := x].Keys == m.Keys
    ensures key !in m ==> |m[key := x]| == |m| + 1 && m[key := x].Keys == m.Keys + {key}
  {
    assert m[key := x].Keys == m.Keys + {key};
    assert |m[key := x].Keys| == |m[key := x]| && |m.Keys| == |m|;
    if key in m { assert m[key := x].Keys == m.Keys; }
  }

  /** A map after one key was removed. */
  lemma Shrunk<T>(m: map<int, T>, key: int)
    requires key in m
    ensures |m - {key}| == |m| - 1 && (m - {key}).Keys == m.Keys - {key}
  {
    assert (m - {key}).Keys == m.Keys - {key};
    assert |(m - {key}).Keys| == |m - {key}| && |m.Keys| == |m|;
  }
}

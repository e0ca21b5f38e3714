/** An optional value, and facts about sizes of sets, maps and multisets. */
module Collections {

  datatype Option<+T> = None | Some(value: T)

  lemma {:induction false} SubsetSize<T>(a: set<T>, b: set<T>)
    requires a <= b
    ensures |a| <= |b|
  {
    if a != {} {
      var x :| x in a;
      SubsetSize(a - {x}, b - {x});
    }
  }

  lemma SetCount<T>(a: set<T>, x: T)
    ensures x in a ==> |a - {x}| == |a| - 1
    ensures x !in a ==> |a + {x}| == |a| + 1
  {
    if x !in a {
      assert a + {x} - {x} == a;
    }
  }

  lemma AddKey<K, V>(m: map<K, V>, k: K, v: V)
    requires k !in m
    ensures m[k := v].Keys == m.Keys + {k} && |m[k := v]| == |m| + 1
  {
    assert m[k := v].Keys == m.Keys + {k};
  }

  lemma DropKey<K, V>(m: map<K, V>, k: K)
    requires k in m
    ensures (m - {k}).Keys == m.Keys - {k} && |m - {k}| + 1 == |m|
  {
    assert (m - {k}).Keys == m.Keys - {k};
  }

  lemma SameSize<T>(s: seq<T>, t: seq<T>)
    requires multiset(s) == multiset(t)
    ensures |s| == |t|
  {
    assert |multiset(s)| == |multiset(t)|;
  }

  lemma RemoveAt<T>(t: seq<T>, i: nat)
    requires i < |t|
    ensures multiset(t[..i] + t[i + 1..]) + multiset{t[i]} == multiset(t)
  {
    assert t == t[..i] + ([t[i]] + t[i + 1..]);
  }

  /** Where the last element of `s` is in a permutation of it. */
  lemma Matching<T>(s: seq<T>, t: seq<T>) returns (i: nat)
    requires s != [] && multiset(s) == multiset(t)
    ensures i < |t| && t[i] == s[|s| - 1]
    ensures multiset(s[..|s| - 1]) == multiset(t[..i] + t[i + 1..])
  {
    var (front, x) := (s[..|s| - 1], s[|s| - 1]);
    assert s == front + [x];
    assert x in multiset(t);
    i :| 0 <= i < |t| && t[i] == x;
    RemoveAt(t, i);
    assert multiset(front) == multiset(s) - multiset{x};
    assert multiset(t[..i] + t[i + 1..]) == multiset(t) - multiset{x};
  }
}

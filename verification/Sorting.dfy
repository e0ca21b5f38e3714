/** Sorting by a key, with no promise about ties. */
module Sorting {
  import opened Collections

  function Keys<T>(s: seq<T>, key: T -> int): (r: seq<int>)
    ensures |r| == |s|
    ensures forall i :: 0 <= i < |s| ==> r[i] == key(s[i])
  {
    seq(|s|, i requires 0 <= i < |s| => key(s[i]))
  }

  ghost predicate AscendingBy<T>(s: seq<T>, key: T -> int) {
    forall i, j :: 0 <= i < j < |s| ==> key(s[i]) <= key(s[j])
  }

  function InsertBy<T>(x: T, s: seq<T>, key: T -> int): (r: seq<T>)
    ensures multiset(r) == multiset(s) + multiset{x}
  {
    if s == [] || key(s[|s| - 1]) <= key(x) then s + [x]
    else
      assert s == s[..|s| - 1] + [s[|s| - 1]];
      InsertBy(x, s[..|s| - 1], key) + [s[|s| - 1]]
  }

  lemma {:induction false} InsertByAscending<T>(x: T, s: seq<T>, key: T -> int)
    requires AscendingBy(s, key)
    ensures AscendingBy(InsertBy(x, s, key), key)
  {
    if s == [] || key(s[|s| - 1]) <= key(x) {
    } else {
      var (front, last) := (s[..|s| - 1], s[|s| - 1]);
      InsertByAscending(x, front, key);
      var r := InsertBy(x, front, key);
      forall i | 0 <= i < |r|
        ensures key(r[i]) <= key(last)
      {
        assert r[i] in multiset(r);
        assert r[i] == x || r[i] in front;
      }
    }
  }

  function SortBy<T>(s: seq<T>, key: T -> int): (r: seq<T>)
    ensures AscendingBy(r, key)
    ensures multiset(r) == multiset(s)
  {
    if s == [] then [] else
    assert s == s[..|s| - 1] + [s[|s| - 1]];
    var front := SortBy(s[..|s| - 1], key);
    InsertByAscending(s[|s| - 1], front, key);
    InsertBy(s[|s| - 1], front, key)
  }

  /** What is in order already stays as it is. */
  lemma {:induction false} SortByAscending<T>(s: seq<T>, key: T -> int)
    requires AscendingBy(s, key)
    ensures SortBy(s, key) == s
  {
    if s != [] {
      var (front, last) := (s[..|s| - 1], s[|s| - 1]);
      SortByAscending(front, key);
      InsertByLast(last, front, key);
      assert s == front + [last];
    }
  }

  lemma InsertByLast<T>(x: T, s: seq<T>, key: T -> int)
    requires s == [] || key(s[|s| - 1]) <= key(x)
    ensures InsertBy(x, s, key) == s + [x]
  {}

  /** Go's `sort.Slice`: ascending by `key`, in whatever order ties fall. */
  method SortSlice<T>(a: array<T>, key: T -> int)
    modifies a
    ensures AscendingBy(a[..], key)
    ensures multiset(a[..]) == multiset(old(a[..]))
  {
    var sorted := SortBy(a[..], key);
    SameSize(sorted, a[..]);
    forall i | 0 <= i < a.Length {
      a[i] := sorted[i];
    }
    assert a[..] == sorted;
  }
}

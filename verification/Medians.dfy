/** Order statistics, and what they say when some inputs are dishonest. */
module Medians {
  import opened Collections
  import opened Sorting

  // ----- Ranks

  /** How many elements are at most `v`. */
  ghost function AtMost(s: seq<int>, v: int): (r: nat)
    ensures r <= |s|
  {
    if s == [] then 0 else AtMost(s[..|s| - 1], v) + if s[|s| - 1] <= v then 1 else 0
  }

  /** `v` is what ends up at index `k` when `s` is sorted. */
  ghost predicate HasRank(s: seq<int>, k: nat, v: int) {
    AtMost(s, v - 1) <= k < AtMost(s, v)
  }

  lemma {:induction false} AtMostConcat(s: seq<int>, t: seq<int>, v: int)
    ensures AtMost(s + t, v) == AtMost(s, v) + AtMost(t, v)
  {
    if t == [] {
      assert s + t == s;
    } else {
      AtMostConcat(s, t[..|t| - 1], v);
      assert (s + t)[..|s + t| - 1] == s + t[..|t| - 1];
    }
  }

  lemma {:induction false} AtMostMonotone(s: seq<int>, v: int, w: int)
    requires v <= w
    ensures AtMost(s, v) <= AtMost(s, w)
  {
    if s != [] {
      AtMostMonotone(s[..|s| - 1], v, w);
    }
  }

  lemma {:induction false} AllAtMost(s: seq<int>, v: int)
    requires forall i :: 0 <= i < |s| ==> s[i] <= v
    ensures AtMost(s, v) == |s|
  {
    if s != [] {
      AllAtMost(s[..|s| - 1], v);
    }
  }

  lemma {:induction false} NoneAtMost(s: seq<int>, v: int)
    requires forall i :: 0 <= i < |s| ==> v < s[i]
    ensures AtMost(s, v) == 0
  {
    if s != [] {
      NoneAtMost(s[..|s| - 1], v);
    }
  }

  /** Ranks depend only on which values there are, not on their order. */
  lemma {:induction false} AtMostPermutation(s: seq<int>, t: seq<int>, v: int)
    requires multiset(s) == multiset(t)
    ensures AtMost(s, v) == AtMost(t, v)
    decreases |s|
  {
    SameSize(s, t);
    if s != [] {
      var i := Matching(s, t);
      var (front, x, before, after) := (s[..|s| - 1], s[|s| - 1], t[..i], t[i + 1..]);
      assert t == before + ([x] + after);
      AtMostPermutation(front, before + after, v);
      AtMostConcat(before, after, v);
      AtMostConcat(before, [x] + after, v);
      AtMostConcat([x], after, v);
    }
  }

  lemma FewBelow(s: seq<int>, k: nat, v: int)
    requires k <= |s| && forall i :: k <= i < |s| ==> v < s[i]
    ensures AtMost(s, v) <= k
  {
    assert s == s[..k] + s[k..];
    AtMostConcat(s[..k], s[k..], v);
    NoneAtMost(s[k..], v);
  }

  lemma ManyAtMost(s: seq<int>, k: nat, v: int)
    requires k <= |s| && forall i :: 0 <= i < k ==> s[i] <= v
    ensures AtMost(s, v) >= k
  {
    assert s == s[..k] + s[k..];
    AtMostConcat(s[..k], s[k..], v);
    AllAtMost(s[..k], v);
  }

  lemma SortedRank<T>(s: seq<T>, key: T -> int, k: nat)
    requires AscendingBy(s, key) && k < |s|
    ensures HasRank(Keys(s, key), k, key(s[k]))
  {
    FewBelow(Keys(s, key), k, key(s[k]) - 1);
    ManyAtMost(Keys(s, key), k + 1, key(s[k]));
  }

  lemma RankUnique(s: seq<int>, k: nat, v: int, w: int)
    requires HasRank(s, k, v) && HasRank(s, k, w)
    ensures v == w
  {
    if v < w {
      AtMostMonotone(s, v, w - 1);
    } else if w < v {
      AtMostMonotone(s, w, v - 1);
    }
  }

  /** Whatever order the values arrive in and however a sort breaks ties, index `k` holds the same value. */
  lemma SortIndependent<T>(s: seq<T>, sorted: seq<T>, key: T -> int, k: nat)
    requires multiset(sorted) == multiset(s) && AscendingBy(sorted, key) && k < |s|
    ensures |sorted| == |s| && HasRank(Keys(s, key), k, key(sorted[k]))
  {
    SameSize(sorted, s);
    SortedRank(sorted, key, k);
    KeysPermutation(sorted, s, key);
    AtMostPermutation(Keys(sorted, key), Keys(s, key), key(sorted[k]));
    AtMostPermutation(Keys(sorted, key), Keys(s, key), key(sorted[k]) - 1);
  }

  lemma {:induction false} KeysPermutation<T>(s: seq<T>, t: seq<T>, key: T -> int)
    requires multiset(s) == multiset(t)
    ensures multiset(Keys(s, key)) == multiset(Keys(t, key))
    decreases |s|
  {
    SameSize(s, t);
    if s != [] {
      var i := Matching(s, t);
      var (front, x, rest) := (s[..|s| - 1], s[|s| - 1], t[..i] + t[i + 1..]);
      KeysPermutation(front, rest, key);
      assert Keys(s, key) == Keys(front, key) + [key(x)];
      RemoveAt(Keys(t, key), i);
      assert Keys(rest, key) == Keys(t, key)[..i] + Keys(t, key)[i + 1..];
    }
  }

  // ----- Dishonest minorities

  /** Where the values of at most `v` are. */
  ghost function Low(s: seq<int>, v: int): (r: set<nat>)
    ensures forall i :: i in r <==> 0 <= i < |s| && s[i] <= v
    ensures |r| == AtMost(s, v)
  {
    if s == [] then {} else
    var n := |s| - 1;
    if s[n] <= v then Low(s[..n], v) + {n} else Low(s[..n], v)
  }

  ghost function Indices(n: nat): (r: set<nat>)
    ensures |r| == n
    ensures forall i: nat :: i in r <==> i < n
  {
    if n == 0 then {} else Indices(n - 1) + {n - 1}
  }

  /** If fewer than half of the values are dishonest, the middle one lies between two honest ones. */
  lemma MedianBetweenHonest(s: seq<int>, dishonest: set<nat>, v: int)
    requires 2 * |dishonest| < |s| && HasRank(s, |s| / 2, v)
    ensures exists i, j :: 0 <= i < |s| && 0 <= j < |s| && i !in dishonest && j !in dishonest && s[i] <= v <= s[j]
  {
    var low := Low(s, v);
    if low <= dishonest {
      SubsetSize(low, dishonest);
      assert false;
    }
    var i :| i in low && i !in dishonest;

    var below := Low(s, v - 1);
    var indices := Indices(|s|);
    if indices <= below + dishonest {
      SubsetSize(indices, below + dishonest);
      assert false;
    }
    var j :| j in indices && j !in below + dishonest;
    assert s[i] <= v <= s[j];
  }
}

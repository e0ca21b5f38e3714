/** A fixed-capacity array with a length, shifted in place. */
module ArrayVecs {
  import opened Collections

  class ArrayVec<T(0)> {
    const xs: array<T>
    var len: nat

    ghost predicate Valid()
      reads this
    {
      len <= xs.Length
    }

    /** `as_slice`. */
    function Contents(): seq<T>
      requires Valid()
      reads this, xs
    {
      xs[..len]
    }

    constructor (capacity: nat)
      ensures Valid() && Contents() == [] && xs.Length == capacity && fresh(xs)
    {
      xs := new T[capacity];
      len := 0;
    }

    /** Each operation aborts, changing nothing, exactly when `ok` is false (or nothing is returned). */
    method Push(element: T) returns (ok: bool)
      requires Valid()
      modifies this, xs
      ensures Valid() && ok == (old(len) < xs.Length)
      ensures Contents() == if ok then old(Contents()) + [element] else old(Contents())
    {
      if len >= xs.Length {
        return false;
      }
      xs[len] := element;
      len := len + 1;
      return true;
    }

    method Clear()
      requires Valid()
      modifies this
      ensures Valid() && Contents() == []
    {
      len := 0;
    }

    /** Move `index + 1..len` back by one. */
    method Remove(index: nat) returns (r: Option<T>)
      requires Valid()
      modifies this, xs
      ensures Valid() && r == (if index < old(len) then Some(old(Contents())[index]) else None)
      ensures Contents() == if r.Some? then old(Contents())[..index] + old(Contents())[index + 1..] else old(Contents())
    {
      if index >= len {
        return None;
      }
      var element := xs[index];
      var i := index + 1;
      while i < len
        modifies xs
        invariant index + 1 <= i <= len
        invariant forall k :: 0 <= k < xs.Length ==>
                    xs[k] == if index <= k < i - 1 then old(xs[k + 1]) else old(xs[k])
      {
        xs[i - 1] := xs[i];
        i := i + 1;
      }
      len := len - 1;
      assert Contents() == old(Contents())[..index] + old(Contents())[index + 1..];
      return Some(element);
    }

    /** Move `index..len` forward by one, from the back, then write. */
    method Insert(index: nat, element: T) returns (ok: bool)
      requires Valid()
      modifies this, xs
      ensures Valid() && ok == (old(len) < xs.Length && index <= old(len))
      ensures Contents()
              == if ok then old(Contents())[..index] + [element] + old(Contents())[index..] else old(Contents())
    {
      if len >= xs.Length || index > len {
        return false;
      }
      var i := len;
      while i > index
        modifies xs
        invariant index <= i <= len < xs.Length
        invariant forall k :: 0 <= k < xs.Length ==>
                    xs[k] == if i < k <= len then old(xs[k - 1]) else old(xs[k])
      {
        xs[i] := xs[i - 1];
        i := i - 1;
      }
      len := len + 1;
      xs[index] := element;
      assert Contents() == old(Contents())[..index] + [element] + old(Contents())[index..];
      return true;
    }

    method Extend(data: seq<T>) returns (ok: bool)
      requires Valid()
      modifies this, xs
      ensures Valid() && ok == (old(len) + |data| <= xs.Length)
      ensures Contents() == if ok then old(Contents()) + data else old(Contents())
    {
      if len + |data| > xs.Length {
        return false;
      }
      for i := 0 to |data|
        modifies xs
        invariant xs[..len] == old(xs[..len]) && xs[len..len + i] == data[..i]
      {
        xs[len + i] := data[i];
      }
      len := len + |data|;
      assert Contents() == old(Contents()) + data;
      return true;
    }
  }
}

/** The access controller: a sorted list of keys that refines a set. */
module AccessList {
  import opened Ocr2Types
  import opened ArrayVecs

  const MAX_ADDRS: nat := 64

  datatype Op = Add(key: Bytes32) | Remove(key: Bytes32)

  // ----- The set it stands for

  function SetStep(members: set<Bytes32>, op: Op): set<Bytes32> {
    match op
    case Add(key) => if |members| >= 64 then members else members + {key}
    case Remove(key) => members - {key}
  }

  function SetRun(ops: seq<Op>): set<Bytes32> {
    if ops == [] then {} else SetStep(SetRun(ops[..|ops| - 1]), ops[|ops| - 1])
  }

  // ----- The list

  function Members(list: seq<Bytes32>): set<Bytes32> {
    set key | key in list
  }

  /** The list with a new key in its place. */
  function InsertKey(list: seq<Bytes32>, key: Bytes32): (r: seq<Bytes32>)
    ensures |r| == |list| + 1
  {
    if list == [] then [key]
    else if Less(list[|list| - 1], key) then list + [key]
    else InsertKey(list[..|list| - 1], key) + [list[|list| - 1]]
  }

  function DeleteKey(list: seq<Bytes32>, key: Bytes32): seq<Bytes32> {
    if list == [] then []
    else if list[|list| - 1] == key then list[..|list| - 1]
    else DeleteKey(list[..|list| - 1], key) + [list[|list| - 1]]
  }

  function ListStep(list: seq<Bytes32>, op: Op): seq<Bytes32> {
    match op
    case Add(key) => if |list| >= MAX_ADDRS || key in list then list else InsertKey(list, key)
    case Remove(key) => if key in list then DeleteKey(list, key) else list
  }

  function ListRun(ops: seq<Op>): seq<Bytes32> {
    if ops == [] then [] else ListStep(ListRun(ops[..|ops| - 1]), ops[|ops| - 1])
  }

  /** Where a binary search says to insert, the sorted insertion inserts. */
  lemma {:induction false} InsertAtPosition(list: seq<Bytes32>, key: Bytes32, p: nat)
    requires p <= |list|
    requires forall i :: 0 <= i < p ==> Less(list[i], key)
    requires forall i :: p <= i < |list| ==> Less(key, list[i])
    ensures InsertKey(list, key) == list[..p] + [key] + list[p..]
  {
    if list != [] {
      var n := |list| - 1;
      if p == |list| {
        assert Less(list[n], key);
      } else {
        if Less(list[n], key) {
          LessTransitive(key, list[n], key);
          LessIrreflexive(key);
          assert false;
        }
        InsertAtPosition(list[..n], key, p);
        assert list[..n][..p] == list[..p] && list[..n][p..] + [list[n]] == list[p..];
      }
    }
  }

  lemma {:induction false} DeleteAtPosition(list: seq<Bytes32>, p: nat)
    requires StrictlySorted(list) && p < |list|
    ensures DeleteKey(list, list[p]) == list[..p] + list[p + 1..]
  {
    var n := |list| - 1;
    if list[n] == list[p] {
      StrictlySortedDistinct(list, p, n);
    } else {
      DeleteAtPosition(list[..n], p);
      assert list[..n][..p] == list[..p] && list[..n][p + 1..] + [list[n]] == list[p + 1..];
    }
  }

  /** The list with a key put in at a position. */
  ghost function Inserted(list: seq<Bytes32>, key: Bytes32, p: nat): seq<Bytes32>
    requires p <= |list|
  {
    list[..p] + [key] + list[p..]
  }

  lemma InsertedAt(list: seq<Bytes32>, key: Bytes32, p: nat, i: nat)
    requires p <= |list| && i <= |list|
    ensures Inserted(list, key, p)[i] == if i < p then list[i] else if i == p then key else list[i - 1]
  {}

  lemma InsertedSorted(list: seq<Bytes32>, key: Bytes32, p: nat)
    requires StrictlySorted(list) && p <= |list|
    requires forall i :: 0 <= i < p ==> Less(list[i], key)
    requires forall i :: p <= i < |list| ==> Less(key, list[i])
    ensures StrictlySorted(Inserted(list, key, p))
  {
    var r := Inserted(list, key, p);
    forall i, j | 0 <= i < j < |r|
      ensures Less(r[i], r[j])
    {
      InsertedAt(list, key, p, i);
      InsertedAt(list, key, p, j);
    }
  }

  lemma InsertedMembers(list: seq<Bytes32>, key: Bytes32, p: nat)
    requires p <= |list|
    ensures Members(Inserted(list, key, p)) == Members(list) + {key}
  {
    assert list == list[..p] + list[p..];
  }

  /** The position a key belongs at in a sorted list that lacks it. */
  lemma {:induction false} Position(list: seq<Bytes32>, key: Bytes32) returns (p: nat)
    requires StrictlySorted(list) && key !in list
    ensures p <= |list|
    ensures forall i :: 0 <= i < p ==> Less(list[i], key)
    ensures forall i :: p <= i < |list| ==> Less(key, list[i])
  {
    p := |list|;
    while p > 0 && Less(key, list[p - 1])
      invariant 0 <= p <= |list|
      invariant forall i :: p <= i < |list| ==> Less(key, list[i])
    {
      p := p - 1;
    }
    if p > 0 {
      LessTotal(list[p - 1], key);
      forall i | 0 <= i < p
        ensures Less(list[i], key)
      {
        if i < p - 1 {
          LessTransitive(list[i], list[p - 1], key);
        }
      }
    }
  }

  lemma {:induction false} SizeOfMembers(list: seq<Bytes32>)
    requires StrictlySorted(list)
    ensures |Members(list)| == |list|
  {
    if list != [] {
      var (front, last) := (list[..|list| - 1], list[|list| - 1]);
      SizeOfMembers(front);
      assert list == front + [last];
      assert Members(list) == Members(front) + {last};
      forall i | 0 <= i < |front|
        ensures front[i] != last
      {
        LessIrreflexive(last);
      }
    }
  }

  lemma StepRefines(list: seq<Bytes32>, op: Op)
    requires StrictlySorted(list) && |list| <= MAX_ADDRS
    ensures StrictlySorted(ListStep(list, op)) && |ListStep(list, op)| <= MAX_ADDRS
    ensures Members(ListStep(list, op)) == SetStep(Members(list), op)
  {
    SizeOfMembers(list);
    match op
    case Add(key) =>
      if |list| < MAX_ADDRS && key !in list {
        var p := Position(list, key);
        InsertAtPosition(list, key, p);
        InsertedSorted(list, key, p);
        InsertedMembers(list, key, p);
      }
    case Remove(key) =>
      if key in list {
        var p :| 0 <= p < |list| && list[p] == key;
        DeleteAtPosition(list, p);
        RemoveFromSorted(list, p);
      }
  }

  lemma RemoveFromSorted(list: seq<Bytes32>, p: nat)
    requires StrictlySorted(list) && p < |list|
    ensures StrictlySorted(list[..p] + list[p + 1..])
    ensures Members(list[..p] + list[p + 1..]) == Members(list) - {list[p]}
  {
    var r := list[..p] + list[p + 1..];
    forall i | 0 <= i < |r|
      ensures r[i] != list[p]
    {
      var at := if i < p then i else i + 1;
      assert r[i] == list[at];
      if list[at] == list[p] {
        StrictlySortedDistinct(list, at, p);
      }
    }
    assert list == list[..p] + [list[p]] + list[p + 1..];
  }

  /** Over every sequence of additions and removals: sorted, within capacity, and the right set. */
  lemma {:induction false} EveryRun(ops: seq<Op>)
    ensures StrictlySorted(ListRun(ops)) && |ListRun(ops)| <= 64
    ensures Members(ListRun(ops)) == SetRun(ops)
  {
    if ops != [] {
      EveryRun(ops[..|ops| - 1]);
      StepRefines(ListRun(ops[..|ops| - 1]), ops[|ops| - 1]);
    }
  }

  // ----- The account

  class AccessController {
    const list: ArrayVec<Bytes32>

    ghost predicate Valid()
      reads this, list, list.xs
    {
      list.Valid() && list.xs.Length == MAX_ADDRS && StrictlySorted(list.Contents())
    }

    constructor ()
      ensures Valid() && list.Contents() == [] && fresh(list) && fresh(list.xs)
    {
      list := new ArrayVec(MAX_ADDRS);
    }

    /** `add_access`, which refuses even a present key when the list is full. */
    method AddAccess(address: Bytes32) returns (ok: bool)
      requires Valid()
      modifies list, list.xs
      ensures Valid() && ok == (|old(list.Contents())| < 64)
      ensures list.Contents() == ListStep(old(list.Contents()), Add(address))
      ensures Members(list.Contents()) == SetStep(old(Members(list.Contents())), Add(address))
    {
      ghost var before := list.Contents();
      StepRefines(before, Add(address));
      if list.xs.Length - list.len == 0 {
        return false;
      }
      var search := BinarySearch(list.Contents(), address);
      if search.Absent? {
        InsertAtPosition(before, address, search.insertAt);
        var inserted := list.Insert(search.insertAt, address);
      }
      return true;
    }

    method RemoveAccess(address: Bytes32)
      requires Valid()
      modifies list, list.xs
      ensures Valid()
      ensures list.Contents() == ListStep(old(list.Contents()), Op.Remove(address))
      ensures Members(list.Contents()) == SetStep(old(Members(list.Contents())), Op.Remove(address))
    {
      ghost var before := list.Contents();
      StepRefines(before, Op.Remove(address));
      var search := BinarySearch(list.Contents(), address);
      if search.Present? {
        DeleteAtPosition(before, search.index);
        var removed := list.Remove(search.index);
      }
    }

    method HasAccess(address: Bytes32) returns (r: bool)
      requires Valid()
      ensures r <==> address in Members(list.Contents())
    {
      var search := BinarySearch(list.Contents(), address);
      return search.Present?;
    }
  }

  /** Fill the list, then add a key that is on it: it is refused. */
  method FullListRefuses() returns (present: bool, ok: bool)
    ensures present && !ok
  {
    var access := new AccessController();
    for i := 0 to 64
      invariant access.Valid() && fresh(access.list) && fresh(access.list.xs)
      invariant |access.list.Contents()| == i
      invariant forall key :: key in Members(access.list.Contents()) ==> key[0] < i
      invariant i > 0 ==> NumberedKey(0) in Members(access.list.Contents())
    {
      assert NumberedKey(i) !in Members(access.list.Contents());
      ok := access.AddAccess(NumberedKey(i));
    }
    present := access.HasAccess(NumberedKey(0));
    ok := access.AddAccess(NumberedKey(0));
  }
}

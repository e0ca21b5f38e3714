/** Counting distinct indices with a 32-bit mask, as the program does with signers. */
module BitMask {

  predicate Bit(mask: bv32, i: nat)
    requires i < 32
  {
    (mask >> i) & 1 == 1
  }

  function CountBits(mask: bv32, n: nat): (r: nat)
    requires n <= 32
    ensures r <= n
  {
    if n == 0 then 0 else CountBits(mask, n - 1) + if Bit(mask, n - 1) then 1 else 0
  }

  /** Rust's `u32::count_ones`. */
  function CountOnes(mask: bv32): nat {
    CountBits(mask, 32)
  }

  predicate AllBelow(indices: seq<nat>, n: nat) {
    forall k :: 0 <= k < |indices| ==> indices[k] < n
  }

  /** `mask |= 1 << index` over all indices. */
  function MaskOf(indices: seq<nat>): bv32
    requires AllBelow(indices, 32)
  {
    if indices == [] then 0
    else SetBit(MaskOf(indices[..|indices| - 1]), indices[|indices| - 1])
  }

  /** `mask | 1 << i`. */
  function SetBit(mask: bv32, i: nat): bv32
    requires i < 32
  {
    mask | (1 << i)
  }

  lemma MaskSnoc(indices: seq<nat>, index: nat)
    requires AllBelow(indices, 32) && index < 32
    ensures AllBelow(indices + [index], 32)
    ensures MaskOf(indices + [index]) == SetBit(MaskOf(indices), index)
  {
    assert (indices + [index])[..|indices|] == indices;
  }

  ghost function Elements(indices: seq<nat>): set<nat> {
    set k | 0 <= k < |indices| :: indices[k]
  }

  lemma BitAfterSet(mask: bv32, i: nat, j: nat)
    requires i < 32 && j < 32
    ensures Bit(SetBit(mask, i), j) <==> i == j || Bit(mask, j)
  {
    ShiftDistinct(i, j);
    SetBitVectors(mask, i as bv32, j as bv32);
  }

  lemma SetBitVectors(mask: bv32, i: bv32, j: bv32)
    requires i < 32 && j < 32
    ensures ((mask | (1 << i)) >> j) & 1 == 1 <==> i == j || (mask >> j) & 1 == 1
  {}

  lemma ShiftDistinct(i: nat, j: nat)
    requires i < 32 && j < 32
    ensures i as bv32 == j as bv32 <==> i == j
    ensures i as bv32 < 32 && j as bv32 < 32
  {
    AsVector(i);
    AsVector(j);
  }

  lemma AsVector(i: nat)
    requires i < 32
    ensures (i as bv32) as nat == i && i as bv32 < 32
  {}

  /** Which bits a mask has, as a set. */
  ghost predicate HasBits(mask: bv32, bits: set<nat>) {
    forall j: nat :: j < 32 ==> (Bit(mask, j) <==> j in bits)
  }

  lemma SetBits(mask: bv32, bits: set<nat>, i: nat)
    requires i < 32 && HasBits(mask, bits)
    ensures HasBits(SetBit(mask, i), bits + {i})
  {
    forall j: nat | j < 32
      ensures Bit(SetBit(mask, i), j) <==> j in bits + {i}
    {
      BitAfterSet(mask, i, j);
    }
  }

  lemma {:induction false} MaskBits(indices: seq<nat>)
    requires AllBelow(indices, 32)
    ensures HasBits(MaskOf(indices), Elements(indices))
  {
    if indices == [] {
      EmptyMask();
    } else {
      var (front, last) := (indices[..|indices| - 1], indices[|indices| - 1]);
      MaskBits(front);
      SetBits(MaskOf(front), Elements(front), last);
      ElementsSnoc(front, last);
      MaskSnoc(front, last);
      assert indices == front + [last];
    }
  }

  lemma EmptyMask()
    ensures HasBits(0, {})
  {
    forall j: nat | j < 32
      ensures !Bit(0, j)
    {
      NoBits(j);
    }
  }

  lemma ElementsSnoc(front: seq<nat>, last: nat)
    ensures Elements(front + [last]) == Elements(front) + {last}
  {
    forall x | x in Elements(front) + {last}
      ensures x in Elements(front + [last])
    {
      if x == last {
        assert (front + [last])[|front|] == x;
      } else {
        var k :| 0 <= k < |front| && front[k] == x;
        assert (front + [last])[k] == x;
      }
    }
  }

  lemma NoBits(j: nat)
    requires j < 32
    ensures !Bit(0, j)
  {
    AsVector(j);
    NoBitsVector(j as bv32);
  }

  lemma NoBitsVector(j: bv32)
    requires j < 32
    ensures ((0 as bv32) >> j) & 1 != 1
  {}

  /** The positions below `n` of the bits that are set. */
  ghost function BitsBelow(mask: bv32, n: nat): set<nat>
    requires n <= 32
  {
    set i: nat | i < n && Bit(mask, i)
  }

  lemma BitsBelowNext(mask: bv32, n: nat)
    requires n < 32
    ensures BitsBelow(mask, n + 1) == if Bit(mask, n) then BitsBelow(mask, n) + {n} else BitsBelow(mask, n)
  {}

  lemma {:induction false} CountBitsIsSize(mask: bv32, n: nat)
    requires n <= 32
    ensures CountBits(mask, n) == |BitsBelow(mask, n)|
  {
    if n > 0 {
      CountBitsIsSize(mask, n - 1);
      BitsBelowNext(mask, n - 1);
    }
  }

  /** The population count of the mask is the number of distinct indices. */
  lemma CountOnesIsDistinct(indices: seq<nat>)
    requires AllBelow(indices, 32)
    ensures CountOnes(MaskOf(indices)) == |Elements(indices)|
  {
    var mask := MaskOf(indices);
    CountBitsIsSize(mask, 32);
    MaskBits(indices);
    assert BitsBelow(mask, 32) == Elements(indices);
  }

  lemma {:induction false} ElementsSize(indices: seq<nat>)
    ensures |Elements(indices)| <= |indices|
    ensures |Elements(indices)| == |indices| ==> forall a, b :: 0 <= a < b < |indices| ==> indices[a] != indices[b]
  {
    if indices != [] {
      var (front, n) := (indices[..|indices| - 1], |indices| - 1);
      ElementsSize(front);
      ElementsSnoc(front, indices[n]);
      assert indices == front + [indices[n]];
      if |Elements(indices)| == |indices| {
        assert indices[n] !in Elements(front);
        forall a, b | 0 <= a < b < |indices|
          ensures indices[a] != indices[b]
        {
          assert front[a] in Elements(front);
        }
      }
    }
  }

  lemma {:induction false} DistinctElements(indices: seq<nat>)
    requires forall a, b :: 0 <= a < b < |indices| ==> indices[a] != indices[b]
    ensures |Elements(indices)| == |indices|
  {
    if indices != [] {
      var (front, n) := (indices[..|indices| - 1], |indices| - 1);
      DistinctElements(front);
      ElementsSnoc(front, indices[n]);
      assert indices == front + [indices[n]] && indices[n] !in Elements(front);
    }
  }
}

/** The accounts of the aggregator program and the order on their keys. */
module Ocr2Types {
  import opened Bytes

  /** Public keys and digests. */
  type Bytes32 = k: seq<byte> | |k| == 32 witness seq(32, i => 0)
  /** A 20-byte address derived from an oracle's signing key. */
  type Address = k: seq<byte> | |k| == 20 witness seq(20, i => 0)

  /** Opaque configuration bytes, bounded by their account. */
  type ConfigBlob = s: seq<byte> | |s| <= 4096

  const DEFAULT_KEY: Bytes32 := Repeat(0, 32)

  /** Distinct keys and addresses for concrete accounts, in order of their numbers. */
  function NumberedKey(i: byte): Bytes32 {
    [i] + Repeat(0, 31)
  }

  function NumberedAddress(i: byte): Address {
    [i] + Repeat(0, 19)
  }

  const MAX_ORACLES: nat := 19
  const MAX_OFFCHAIN_CONFIG: nat := 4096
  const STATE_VERSION: byte := 1

  datatype Error =
    | Unauthorized | InvalidInput | TooManyOracles | StaleReport | DigestMismatch
    | WrongNumberOfSignatures | Overflow | MedianOutOfRange | DuplicateSigner | DuplicateTransmitter
    | PayeeOracleMismatch | InvalidTokenAccount | UnauthorizedSigner | UnauthorizedTransmitter
    /** A failed cross-program call, or an aborted instruction. */
    | TokenFailure | StoreFailure | Aborted

  datatype Result<+T> = Ok(value: T) | Err(error: Error) {
    predicate IsFailure() {
      Err?
    }

    function PropagateFailure<U>(): Result<U>
      requires Err?
    {
      Err(error)
    }

    function Extract(): T
      requires Ok?
    {
      value
    }
  }

  datatype Oracle = Oracle(
    transmitter: Bytes32, signer: Address, payee: Bytes32, proposedPayee: Bytes32,
    fromRoundId: u32, payment: u64)

  datatype ProposedOracle = ProposedOracle(transmitter: Bytes32, signer: Address, payee: Bytes32)

  datatype Billing = Billing(observation: u32, transmission: u32)

  datatype OffchainConfig = OffchainConfig(version: u64, data: ConfigBlob)

  datatype Proposal = Proposal(
    version: byte, owner: Bytes32, finalized: bool, f: byte, tokenMint: Bytes32,
    oracles: seq<ProposedOracle>, offchain: OffchainConfig)

  datatype Config = Config(
    owner: Bytes32, proposedOwner: Bytes32, tokenMint: Bytes32, tokenVault: Bytes32,
    requesterController: Bytes32, billingController: Bytes32,
    minAnswer: i128, maxAnswer: i128,
    f: byte, round: byte, epoch: u32, latestRoundId: u32, latestTransmitter: Bytes32,
    configCount: u32, configDigest: Bytes32, configSlot: nat,
    billing: Billing)

  /** An SPL token account. */
  datatype TokenAccount = TokenAccount(mint: Bytes32, owner: Bytes32, amount: u64)

  function Signers(oracles: seq<Oracle>): (r: seq<Address>)
    ensures |r| == |oracles|
  {
    seq(|oracles|, i requires 0 <= i < |oracles| => oracles[i].signer)
  }

  function Transmitters(oracles: seq<Oracle>): (r: seq<Bytes32>)
    ensures |r| == |oracles|
  {
    seq(|oracles|, i requires 0 <= i < |oracles| => oracles[i].transmitter)
  }

  // ----- Byte-wise order on keys

  predicate Less(a: seq<byte>, b: seq<byte>) {
    if b == [] then false
    else if a == [] then true
    else if a[0] != b[0] then a[0] < b[0]
    else Less(a[1..], b[1..])
  }

  lemma {:induction false} LessIrreflexive(a: seq<byte>)
    ensures !Less(a, a)
  {
    if a != [] {
      LessIrreflexive(a[1..]);
    }
  }

  lemma {:induction false} LessTransitive(a: seq<byte>, b: seq<byte>, c: seq<byte>)
    requires Less(a, b) && Less(b, c)
    ensures Less(a, c)
  {
    if a != [] && a[0] == b[0] && b[0] == c[0] {
      LessTransitive(a[1..], b[1..], c[1..]);
    }
  }

  lemma {:induction false} LessTotal(a: seq<byte>, b: seq<byte>)
    ensures a == b || Less(a, b) || Less(b, a)
  {
    if a != [] && b != [] && a[0] == b[0] {
      LessTotal(a[1..], b[1..]);
      assert a == [a[0]] + a[1..] && b == [b[0]] + b[1..];
    }
  }

  /** On keys of one length, the byte-wise order is the order of the numbers they spell. */
  lemma {:induction false} LessIsNumeric(a: seq<byte>, b: seq<byte>)
    requires |a| == |b|
    ensures Less(a, b) <==> FromBE(a) < FromBE(b)
  {
    if a != [] {
      BigEndianCons(a);
      BigEndianCons(b);
      if a[0] == b[0] {
        LessIsNumeric(a[1..], b[1..]);
      } else {
        var p := Pow256(|a| - 1);
        BigEndianBound(a[1..]);
        BigEndianBound(b[1..]);
        MulOrder(p, a[0], b[0]);
        MulOrder(p, b[0], a[0]);
      }
    }
  }

  /** Strictly increasing: in order and free of duplicates. */
  ghost predicate StrictlySorted(keys: seq<seq<byte>>) {
    forall i, j :: 0 <= i < j < |keys| ==> Less(keys[i], keys[j])
  }

  lemma StrictlySortedDistinct(keys: seq<seq<byte>>, i: nat, j: nat)
    requires StrictlySorted(keys) && i < |keys| && j < |keys| && keys[i] == keys[j]
    ensures i == j
  {
    LessIrreflexive(keys[i]);
  }

  /** Comparing neighbours is enough. */
  lemma {:induction false} NeighboursSorted(keys: seq<seq<byte>>)
    requires forall i {:trigger keys[i]} :: 0 <= i && i + 1 < |keys| ==> Less(keys[i], keys[i + 1])
    ensures StrictlySorted(keys)
  {
    if |keys| > 1 {
      var front := keys[..|keys| - 1];
      NeighboursSorted(front);
      forall i, j | 0 <= i < j < |keys|
        ensures Less(keys[i], keys[j])
      {
        if j < |front| {
          assert Less(front[i], front[j]);
        } else if i < |front| - 1 {
          assert Less(front[i], front[|front| - 1]);
          LessTransitive(keys[i], keys[j - 1], keys[j]);
        }
      }
    }
  }

  /** Rust's `binary_search` on a strictly sorted slice: the index of `key`, or where to insert it. */
  datatype Search = Present(index: nat) | Absent(insertAt: nat)

  method BinarySearch(keys: seq<seq<byte>>, key: seq<byte>) returns (r: Search)
    requires StrictlySorted(keys)
    ensures r.Present? <==> key in keys
    ensures r.Present? ==> r.index < |keys| && keys[r.index] == key
    ensures r.Absent? ==> r.insertAt <= |keys|
                          && (forall i :: 0 <= i < r.insertAt ==> Less(keys[i], key))
                          && (forall i :: r.insertAt <= i < |keys| ==> Less(key, keys[i]))
  {
    var lo, hi := 0, |keys|;
    while lo < hi
      invariant 0 <= lo <= hi <= |keys|
      invariant forall i :: 0 <= i < lo ==> Less(keys[i], key)
      invariant forall i :: hi <= i < |keys| ==> Less(key, keys[i])
    {
      var mid := lo + (hi - lo) / 2;
      if keys[mid] == key {
        return Present(mid);
      }
      LessTotal(keys[mid], key);
      if Less(keys[mid], key) {
        forall i | 0 <= i < mid + 1
          ensures Less(keys[i], key)
        {
          if i < mid {
            LessTransitive(keys[i], keys[mid], key);
          }
        }
        lo := mid + 1;
      } else {
        forall i | mid <= i < |keys|
          ensures Less(key, keys[i])
        {
          if mid < i {
            LessTransitive(key, keys[mid], keys[i]);
          }
        }
        hi := mid;
      }
    }
    LessIrreflexive(key);
    return Absent(lo);
  }
}

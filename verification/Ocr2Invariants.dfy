/** What every run of the aggregator keeps: a usable quorum, frozen proposals,
    rounds that only move forward, and accounts that never run ahead of them. */
module Ocr2Invariants {
  import opened Bytes
  import opened Collections
  import opened Ocr2Types
  import opened Encodings
  import opened Sorting
  import opened Ocr2
  import BitMask
  import ComputeBudget

  // ----- Sorting a proposal

  lemma LessAsymmetric(a: seq<byte>, b: seq<byte>)
    requires Less(a, b)
    ensures !Less(b, a)
  {
    if Less(b, a) {
      LessTransitive(a, b, a);
      LessIrreflexive(a);
    }
  }

  /** Without equal signers there is only one sorted order, so an unstable sort is as good as any. */
  lemma {:induction false} SortedOrderUnique(a: seq<ProposedOracle>, b: seq<ProposedOracle>)
    requires multiset(a) == multiset(b)
    requires StrictlySorted(ProposedSigners(a)) && StrictlySorted(ProposedSigners(b))
    ensures a == b
  {
    SameSize(a, b);
    if a != [] {
      FirstIsLeast(a, b);
      assert a == [a[0]] + a[1..] && b == [b[0]] + b[1..];
      assert multiset(a[1..]) == multiset(a) - multiset{a[0]};
      assert multiset(b[1..]) == multiset(b) - multiset{b[0]};
      TailSorted(a);
      TailSorted(b);
      SortedOrderUnique(a[1..], b[1..]);
    }
  }

  lemma TailSorted(a: seq<ProposedOracle>)
    requires a != [] && StrictlySorted(ProposedSigners(a))
    ensures StrictlySorted(ProposedSigners(a[1..]))
  {
    assert ProposedSigners(a[1..]) == ProposedSigners(a)[1..];
  }

  lemma FirstIsLeast(a: seq<ProposedOracle>, b: seq<ProposedOracle>)
    requires a != [] && b != [] && multiset(a) == multiset(b)
    requires StrictlySorted(ProposedSigners(a)) && StrictlySorted(ProposedSigners(b))
    ensures a[0] == b[0]
  {
    assert a[0] in multiset(b) && b[0] in multiset(a);
    var i :| 0 <= i < |b| && b[i] == a[0];
    var j :| 0 <= j < |a| && a[j] == b[0];
    if i > 0 && j > 0 {
      assert Less(ProposedSigners(b)[0], ProposedSigners(b)[i]);
      assert Less(ProposedSigners(a)[0], ProposedSigners(a)[j]);
      LessAsymmetric(a[0].signer, b[0].signer);
    }
  }

  // ----- The invariant

  ghost predicate Distinct<T>(s: seq<T>) {
    forall i, j :: 0 <= i < j < |s| ==> s[i] != s[j]
  }

  /** Oracle sets that can tolerate f faults, with signers in search order. */
  ghost predicate Quorate(f: byte, signers: seq<Address>, transmitters: seq<Bytes32>) {
    && 1 <= f && 3 * f < |signers| <= MAX_ORACLES
    && StrictlySorted(signers) && Distinct(transmitters)
  }

  function ProposedTransmitters(oracles: seq<ProposedOracle>): (r: seq<Bytes32>)
    ensures |r| == |oracles|
  {
    seq(|oracles|, i requires 0 <= i < |oracles| => oracles[i].transmitter)
  }

  ghost predicate ProposalOk(p: Proposal) {
    && p.version == STATE_VERSION
    && (p.oracles != [] ==> Quorate(p.f, ProposedSigners(p.oracles), ProposedTransmitters(p.oracles)))
    && (p.finalized ==> p.oracles != [] && AllPayeesSet(p.oracles) && p.offchain.data != [])
  }

  ghost predicate ProposalsOk(proposals: map<Bytes32, Proposal>) {
    forall key :: key in proposals ==> ProposalOk(proposals[key])
  }

  ghost predicate NotAhead(oracles: seq<Oracle>, latestRoundId: nat) {
    forall i :: 0 <= i < |oracles| ==> oracles[i].fromRoundId <= latestRoundId
  }

  ghost predicate Inv(c: Chain) {
    && c.version == STATE_VERSION
    && (c.oracles != [] ==> Quorate(c.config.f, Signers(c.oracles), Transmitters(c.oracles)))
    && ProposalsOk(c.proposals)
    && NotAhead(c.oracles, c.config.latestRoundId)
    && |c.answers| == c.config.latestRoundId
  }

  lemma ProposeConfigQuorate(p: Proposal, newOracles: seq<NewOracle>, f: byte)
    requires ProposeConfigImpl(p, newOracles, f).Ok?
    ensures var p' := ProposeConfigImpl(p, newOracles, f).value;
            Quorate(f, ProposedSigners(p'.oracles), ProposedTransmitters(p'.oracles))
  {
    SortedSigners(SortOracles(Proposed(newOracles)));
  }

  /** Sorted, and no two neighbours alike: strictly sorted. */
  lemma SortedSigners(oracles: seq<ProposedOracle>)
    requires AscendingBy(oracles, SignerRank) && !HasDuplicateSigner(oracles)
    ensures StrictlySorted(ProposedSigners(oracles))
  {
    var signers := ProposedSigners(oracles);
    forall i | 0 <= i && i + 1 < |signers|
      ensures Less(signers[i], signers[i + 1])
    {
      var (a, b) := (oracles[i], oracles[i + 1]);
      assert SignerRank(a) <= SignerRank(b);
      LessTotal(a.signer, b.signer);
      LessIsNumeric(b.signer, a.signer);
    }
    NeighboursSorted(signers);
  }

  /** Same keys in the same places: billing does not touch who the oracles are. */
  ghost predicate SameKeys(a: seq<Oracle>, b: seq<Oracle>) {
    |a| == |b| && forall i :: 0 <= i < |a| ==> a[i].signer == b[i].signer && a[i].transmitter == b[i].transmitter
  }

  lemma SameKeysSame(a: seq<Oracle>, b: seq<Oracle>)
    requires SameKeys(a, b)
    ensures Signers(a) == Signers(b) && Transmitters(a) == Transmitters(b)
  {}

  lemma InstallQuorate(env: Env, c: Chain, p: Proposal, slot: nat)
    requires ProposalOk(p) && p.finalized && Install(env, c, p, slot).Ok?
    ensures var c' := Install(env, c, p, slot).value;
            Quorate(c'.config.f, Signers(c'.oracles), Transmitters(c'.oracles))
  {
    var oracles := Accepted(p.oracles, c.config.latestRoundId);
    assert Signers(oracles) == ProposedSigners(p.oracles);
    assert Transmitters(oracles) == ProposedTransmitters(p.oracles);
  }

  lemma ProposalKeepsInv(c: Chain, key: Bytes32, authority: Bytes32, ix: ProposalIx)
    requires Inv(c) && ExecOnProposal(c, key, authority, ix).Ok?
    ensures Inv(ExecOnProposal(c, key, authority, ix).value.chain)
  {
    ProposalFrame(c, key, authority, ix);
    ProposalStaysOk(c, key, authority, ix);
  }

  lemma ProposalStaysOk(c: Chain, key: Bytes32, authority: Bytes32, ix: ProposalIx)
    requires ProposalsOk(c.proposals) && ExecOnProposal(c, key, authority, ix).Ok?
    ensures ProposalsOk(ExecOnProposal(c, key, authority, ix).value.chain.proposals)
  {
    match ix
    case ProposeConfig(newOracles, f) =>
      ProposeConfigQuorate(c.proposals[key], newOracles, f);
      UpdateStaysOk(c.proposals, key, ProposeConfigImpl(c.proposals[key], newOracles, f).value);
    case ProposePayees(payees, mint) =>
      PayeesKeepKeys(c.proposals[key].oracles, payees);
      var p := c.proposals[key].(oracles := WithPayees(c.proposals[key].oracles, payees), tokenMint := mint);
      UpdateStaysOk(c.proposals, key, p);
    case _ =>
  }

  lemma UpdateStaysOk(proposals: map<Bytes32, Proposal>, key: Bytes32, p: Proposal)
    requires ProposalsOk(proposals) && ProposalOk(p)
    ensures ProposalsOk(proposals[key := p])
  {}

  lemma PayeesKeepKeys(oracles: seq<ProposedOracle>, payees: seq<Bytes32>)
    requires |oracles| == |payees|
    ensures ProposedSigners(WithPayees(oracles, payees)) == ProposedSigners(oracles)
    ensures ProposedTransmitters(WithPayees(oracles, payees)) == ProposedTransmitters(oracles)
  {}

  lemma PayKeepsInv(c: Chain, payees: seq<Bytes32>, receiver: Bytes32)
    requires Inv(c) && PayOraclesImpl(c, payees, receiver).Ok?
    ensures Inv(PayOraclesImpl(c, payees, receiver).value.chain)
  {
    SameKeysSame(c.oracles, Settled(c.oracles, c.config.latestRoundId));
  }

  lemma OracleKeepsInv(c: Chain, index: nat, oracle: Oracle)
    requires Inv(c) && index < |c.oracles|
    requires oracle.signer == c.oracles[index].signer && oracle.transmitter == c.oracles[index].transmitter
    requires oracle.fromRoundId <= c.config.latestRoundId
    ensures Inv(c.(oracles := c.oracles[index := oracle]))
  {
    SameKeysSame(c.oracles, c.oracles[index := oracle]);
  }

  lemma WithdrawKeepsInv(c: Chain, authority: Bytes32, payee: Bytes32)
    requires Inv(c) && ExecWithdrawPayment(c, authority, payee).Ok?
    ensures Inv(ExecWithdrawPayment(c, authority, payee).value.chain)
  {
    var index := FindPayee(c.oracles, payee).value;
    OracleKeepsInv(c, index, c.oracles[index].(payment := 0, fromRoundId := c.config.latestRoundId));
  }

  lemma TransmitKeepsInv(env: Env, c: Chain, transmitter: Bytes32, t: Transmission, a: Acceptance)
    requires Inv(c) && t.Sized() && a.transmitter < |c.oracles| && c.config.latestRoundId < U32_MAX
    ensures Inv(ApplyTransmit(c, transmitter, t, a))
  {
    SameKeysSame(c.oracles, ApplyTransmit(c, transmitter, t, a).oracles);
  }

  lemma AcceptKeepsInv(env: Env, c: Chain, key: Bytes32, authority: Bytes32, digest: seq<byte>,
                       payees: seq<Bytes32>, receiver: Bytes32, slot: nat)
    requires Inv(c)
    requires ExecAccept(env, c, key, authority, digest, payees, receiver, slot).Ok?
    ensures Inv(ExecAccept(env, c, key, authority, digest, payees, receiver, slot).value.chain)
  {
    var paid := PayOraclesImpl(c, payees, receiver).value.chain;
    InstallQuorate(env, paid, c.proposals[key], slot);
    var c' := ExecAccept(env, c, key, authority, digest, payees, receiver, slot).value.chain;
    assert ProposalsOk(c'.proposals);
  }

  lemma BillingKeepsInv(c: Chain, authority: Bytes32, controller: Bytes32, ix: BillingIx)
    requires Inv(c) && ExecBilling(c, authority, controller, ix).Ok?
    ensures Inv(ExecBilling(c, authority, controller, ix).value.chain)
  {
    match ix
    case SetBilling(_, payees, receiver) => PayKeepsInv(c, payees, receiver);
    case PayOracles(payees, receiver) => PayKeepsInv(c, payees, receiver);
    case WithdrawFunds(_, _) =>
  }

  lemma PayeeshipKeepsInv(c: Chain, authority: Bytes32, transmitter: Bytes32, ix: PayeeshipIx)
    requires Inv(c) && ExecPayeeship(c, authority, transmitter, ix).Ok?
    ensures Inv(ExecPayeeship(c, authority, transmitter, ix).value.chain)
  {
    var index := FindTransmitter(c.oracles, transmitter).value;
    OracleKeepsInv(c, index, ExecPayeeship(c, authority, transmitter, ix).value.chain.oracles[index]);
  }

  lemma TransmitStepKeepsInv(env: Env, c: Chain, transmitter: Bytes32, raw: seq<byte>,
                             sysvar: Option<ComputeBudget.Sysvar>, storeAccepts: bool)
    requires Inv(c) && ExecTransmit(env, c, transmitter, raw, sysvar, storeAccepts).Ok?
    ensures Inv(ExecTransmit(env, c, transmitter, raw, sysvar, storeAccepts).value.chain)
  {
    var t := ParseTransmission(raw).value;
    TransmitKeepsInv(env, c, transmitter, t, CheckTransmit(env, c, transmitter, t, sysvar).value);
  }

  lemma AdminKeepsInv(c: Chain, authority: Bytes32, ix: AdminIx)
    requires Inv(c) && ExecAdmin(c, authority, ix).Ok?
    ensures Inv(ExecAdmin(c, authority, ix).value.chain)
  {}

  lemma OutsideKeepsInv(c: Chain, ix: OutsideIx)
    requires Inv(c) && ExecOutside(c, ix).Ok?
    ensures Inv(ExecOutside(c, ix).value.chain)
  {}

  /** Every instruction keeps the invariant. */
  lemma StepKeepsInv(env: Env, c: Chain, ix: Ix)
    requires Inv(c)
    ensures Inv(Step(env, c, ix))
  {
    if Exec(env, c, ix).Ok? {
      match ix
      case OnProposal(key, authority, action) => ProposalKeepsInv(c, key, authority, action);
      case AcceptProposal(key, authority, digest, payees, receiver, slot) =>
        AcceptKeepsInv(env, c, key, authority, digest, payees, receiver, slot);
      case Admin(authority, action) => AdminKeepsInv(c, authority, action);
      case Transmit(transmitter, raw, sysvar, storeAccepts) =>
        TransmitStepKeepsInv(env, c, transmitter, raw, sysvar, storeAccepts);
      case Bill(authority, controller, action) => BillingKeepsInv(c, authority, controller, action);
      case WithdrawPayment(authority, payee) =>
        WithdrawKeepsInv(c, authority, payee);
      case Payeeship(authority, transmitter, action) => PayeeshipKeepsInv(c, authority, transmitter, action);
      case RequestNewRound(_, _) =>
      case Outside(action) => OutsideKeepsInv(c, action);
    }
  }

  /** Every state of every run. */
  lemma {:induction false} RunKeepsInv(env: Env, c: Chain, ixs: seq<Ix>)
    requires Initial(c)
    ensures Inv(Run(env, c, ixs))
  {
    if ixs != [] {
      RunKeepsInv(env, c, ixs[..|ixs| - 1]);
      StepKeepsInv(env, Run(env, c, ixs[..|ixs| - 1]), ixs[|ixs| - 1]);
    }
  }

  // ----- Quorum

  /** Signature `k` of a raw transmission, with its recovery id, is by the holder of `address`, over the report
      behind its length and in front of its context. */
  predicate Recovers(env: Env, raw: seq<byte>, k: nat, address: Address) {
    && 158 + 65 * k + 65 <= |raw|
    && env.recover([61] + raw[97..158] + raw[1..97], raw[158 + 65 * k..158 + 65 * k + 64], raw[158 + 65 * k + 64])
       == Ok(address)
  }

  /** The signatures of a raw transmission are those of these oracles, no two of them the same. */
  ghost predicate SignedBy(env: Env, oracles: seq<Oracle>, raw: seq<byte>, signers: seq<nat>) {
    && |raw| == 158 + 65 * |signers| && Distinct(signers)
    && forall k :: 0 <= k < |signers| ==> signers[k] < |oracles| && Recovers(env, raw, k, oracles[signers[k]].signer)
  }

  /** Where the signatures and the signed bytes of a parsed transmission come from. */
  lemma ParsedBytes(raw: seq<byte>)
    requires ParseTransmission(raw).Ok?
    ensures var t := ParseTransmission(raw).value;
            && t.Message() == [61] + raw[97..158] + raw[1..97]
            && |t.signatures| == |raw| - 158
            && forall k: nat :: (k + 1) * SIGNATURE_LEN <= |t.signatures| ==>
                 t.Signature(k) == (raw[158 + 65 * k..158 + 65 * k + 64], raw[158 + 65 * k + 64])
  {
    var signatures := ParseTransmission(raw).value.signatures;
    forall k: nat | (k + 1) * SIGNATURE_LEN <= |signatures|
      ensures signatures[k * SIGNATURE_LEN..k * SIGNATURE_LEN + 64] == raw[158 + 65 * k..158 + 65 * k + 64]
    {}
  }

  lemma {:induction false} IndicesRecover(env: Env, oracles: seq<Oracle>, raw: seq<byte>, n: nat, k: nat)
    requires ParseTransmission(raw).Ok?
    requires var t := ParseTransmission(raw).value;
             k < n <= t.SignatureCount() && SignerIndices(env, oracles, t, n).Ok?
    ensures Recovers(env, raw, k, oracles[SignerIndices(env, oracles, ParseTransmission(raw).value, n).value[k]].signer)
  {
    if k < n - 1 {
      IndicesRecover(env, oracles, raw, n - 1, k);
    } else {
      ParsedBytes(raw);
    }
  }

  /** What the signature checks establish about the indices they return. */
  lemma VerifiedSigners(env: Env, oracles: seq<Oracle>, f: byte, raw: seq<byte>)
    requires ParseTransmission(raw).Ok? && VerifySignatures(env, oracles, f, ParseTransmission(raw).value).Ok?
    ensures var signers := VerifySignatures(env, oracles, f, ParseTransmission(raw).value).value;
            |signers| == f + 1 == |BitMask.Elements(signers)| && SignedBy(env, oracles, raw, signers)
  {
    var t := ParseTransmission(raw).value;
    var signers := VerifySignatures(env, oracles, f, t).value;
    BitMask.CountOnesIsDistinct(signers);
    BitMask.ElementsSize(signers);
    forall k | 0 <= k < |signers|
      ensures Recovers(env, raw, k, oracles[signers[k]].signer)
    {
      IndicesRecover(env, oracles, raw, |signers|, k);
    }
  }

  lemma {:induction false} RecoveredIndices(env: Env, oracles: seq<Oracle>, raw: seq<byte>, signers: seq<nat>, k: nat)
    requires StrictlySorted(Signers(oracles)) && SignedBy(env, oracles, raw, signers) && ParseTransmission(raw).Ok?
    requires k <= |signers| == ParseTransmission(raw).value.SignatureCount()
    ensures SignerIndices(env, oracles, ParseTransmission(raw).value, k) == Ok(signers[..k])
  {
    if k > 0 {
      RecoveredIndices(env, oracles, raw, signers, k - 1);
      ParsedBytes(raw);
      var (address, at) := (oracles[signers[k - 1]].signer, signers[k - 1]);
      assert Recovers(env, raw, k - 1, address);
      assert Signers(oracles)[at] == address;
      var found := FindSigner(oracles, address);
      if found.Some? {
        assert Signers(oracles)[found.value] == address;
        StrictlySortedDistinct(Signers(oracles), found.value, at);
      }
      assert signers[..k] == signers[..k - 1] + [at];
    }
  }

  /** The signature checks pass exactly when the signatures are those of f + 1 different oracles. */
  lemma VerifyExact(env: Env, oracles: seq<Oracle>, f: byte, raw: seq<byte>)
    requires StrictlySorted(Signers(oracles)) && |oracles| <= MAX_ORACLES && ParseTransmission(raw).Ok?
    ensures VerifySignatures(env, oracles, f, ParseTransmission(raw).value).Ok? <==>
              exists signers :: |signers| == f + 1 && SignedBy(env, oracles, raw, signers)
    ensures forall signers :: |signers| == f + 1 && SignedBy(env, oracles, raw, signers) ==>
              VerifySignatures(env, oracles, f, ParseTransmission(raw).value) == Ok(signers)
  {
    var t := ParseTransmission(raw).value;
    if VerifySignatures(env, oracles, f, t).Ok? {
      VerifiedSigners(env, oracles, f, raw);
    }
    forall signers | |signers| == f + 1 && SignedBy(env, oracles, raw, signers)
      ensures VerifySignatures(env, oracles, f, t) == Ok(signers)
    {
      RecoveredIndices(env, oracles, raw, signers, f + 1);
      assert signers[..f + 1] == signers;
      BitMask.CountOnesIsDistinct(signers);
      BitMask.DistinctElements(signers);
    }
  }

  /** No set of at most f oracles contains all the signers of an accepted transmission. */
  lemma QuorumOfSigners(env: Env, oracles: seq<Oracle>, f: byte, raw: seq<byte>, coalition: set<nat>) returns (k: nat)
    requires ParseTransmission(raw).Ok? && VerifySignatures(env, oracles, f, ParseTransmission(raw).value).Ok?
    requires |coalition| <= f
    ensures var signers := VerifySignatures(env, oracles, f, ParseTransmission(raw).value).value;
            k < |signers| && signers[k] !in coalition && signers[k] < |oracles|
            && Recovers(env, raw, k, oracles[signers[k]].signer)
  {
    var signers := VerifySignatures(env, oracles, f, ParseTransmission(raw).value).value;
    VerifiedSigners(env, oracles, f, raw);
    if BitMask.Elements(signers) <= coalition {
      SubsetSize(BitMask.Elements(signers), coalition);
      assert false;
    }
    var x :| x in BitMask.Elements(signers) && x !in coalition;
    k :| 0 <= k < |signers| && signers[k] == x;
  }

  /** In every reachable state, an accepted transmission carries f+1 distinct oracles' signatures, out of n > 3f. */
  lemma EveryTransmitHasQuorum(env: Env, c: Chain, ixs: seq<Ix>, ix: Ix, coalition: set<nat>)
    returns (signers: seq<nat>, k: nat)
    requires Initial(c) && ix.Transmit?
    requires var now := Run(env, c, ixs); Exec(env, now, ix).Ok? && |coalition| <= now.config.f
    ensures var now := Run(env, c, ixs);
            && 1 <= now.config.f && 3 * now.config.f < |now.oracles| <= 19
            && |signers| == now.config.f + 1 && SignedBy(env, now.oracles, ix.raw, signers)
            && k < |signers| && signers[k] !in coalition
  {
    var now := Run(env, c, ixs);
    RunKeepsInv(env, c, ixs);
    var t := ParseTransmission(ix.raw).value;
    VerifiedSigners(env, now.oracles, now.config.f, ix.raw);
    signers := VerifySignatures(env, now.oracles, now.config.f, t).value;
    k := QuorumOfSigners(env, now.oracles, now.config.f, ix.raw, coalition);
  }

  // ----- Rounds move forward

  function Stamp(c: Chain): nat {
    c.config.epoch * 256 + c.config.round
  }

  /** What the rest of the state sees of the round. */
  ghost predicate SameRound(c: Chain, c': Chain) {
    && c'.config.epoch == c.config.epoch && c'.config.round == c.config.round
    && c'.config.latestRoundId == c.config.latestRoundId && c'.answers == c.answers
    && SameBounds(c, c')
  }

  ghost predicate SameBounds(c: Chain, c': Chain) {
    c'.config.minAnswer == c.config.minAnswer && c'.config.maxAnswer == c.config.maxAnswer
  }

  lemma PayFrame(c: Chain, payees: seq<Bytes32>, receiver: Bytes32)
    requires PayOraclesImpl(c, payees, receiver).Ok?
    ensures var c' := PayOraclesImpl(c, payees, receiver).value.chain;
            c' == c.(oracles := Settled(c.oracles, c.config.latestRoundId), tokens := c'.tokens)
  {}

  lemma AcceptFrame(env: Env, c: Chain, key: Bytes32, authority: Bytes32, digest: seq<byte>,
                    payees: seq<Bytes32>, receiver: Bytes32, slot: nat)
    requires ExecAccept(env, c, key, authority, digest, payees, receiver, slot).Ok?
    ensures var c' := ExecAccept(env, c, key, authority, digest, payees, receiver, slot).value.chain;
            && SameRound(c, c') && key in c.proposals && c'.proposals == c.proposals - {key}
            && c'.oracles == Accepted(c.proposals[key].oracles, c.config.latestRoundId)
            && c'.config.billing == c.config.billing
  {
    PayFrame(c, payees, receiver);
  }

  lemma ProposalFrame(c: Chain, key: Bytes32, authority: Bytes32, ix: ProposalIx)
    requires ExecOnProposal(c, key, authority, ix).Ok?
    ensures var effect := ExecOnProposal(c, key, authority, ix).value;
            && effect.payments == []
            && effect.chain == c.(proposals := effect.chain.proposals)
            && effect.chain.proposals - {key} == c.proposals - {key}
            && (key in c.proposals && c.proposals[key].finalized ==>
                ix.CloseProposal? && key !in effect.chain.proposals)
  {}

  lemma BillingFrame(c: Chain, authority: Bytes32, controller: Bytes32, ix: BillingIx)
    requires ExecBilling(c, authority, controller, ix).Ok?
    ensures var c' := ExecBilling(c, authority, controller, ix).value.chain;
            SameRound(c, c') && c'.proposals == c.proposals
  {
    match ix
    case SetBilling(_, payees, receiver) => PayFrame(c, payees, receiver);
    case PayOracles(payees, receiver) => PayFrame(c, payees, receiver);
    case WithdrawFunds(_, _) =>
  }

  /** Billing and housekeeping touch neither rounds nor proposals. */
  lemma OtherFrame(env: Env, c: Chain, ix: Ix)
    requires !ix.OnProposal? && !ix.AcceptProposal? && !ix.Transmit? && Exec(env, c, ix).Ok?
    ensures var c' := Exec(env, c, ix).value.chain;
            SameRound(c, c') && c'.proposals == c.proposals
  {
    match ix
    case Bill(authority, controller, action) => BillingFrame(c, authority, controller, action);
    case WithdrawPayment(authority, payee) => WithdrawFrame(c, authority, payee);
    case Payeeship(authority, transmitter, action) => PayeeshipFrame(c, authority, transmitter, action);
    case _ =>
  }

  lemma WithdrawFrame(c: Chain, authority: Bytes32, payee: Bytes32)
    requires ExecWithdrawPayment(c, authority, payee).Ok?
    ensures var c' := ExecWithdrawPayment(c, authority, payee).value.chain;
            c' == c.(oracles := c'.oracles, tokens := c'.tokens)
  {}

  lemma PayeeshipFrame(c: Chain, authority: Bytes32, transmitter: Bytes32, ix: PayeeshipIx)
    requires ExecPayeeship(c, authority, transmitter, ix).Ok?
    ensures var c' := ExecPayeeship(c, authority, transmitter, ix).value.chain;
            c' == c.(oracles := c'.oracles)
  {}

  lemma TransmitAdvances(c: Chain, transmitter: Bytes32, t: Transmission, a: Acceptance)
    requires t.Sized() && a.transmitter < |c.oracles| && c.config.latestRoundId < U32_MAX
    requires Newer(c.config, t.Epoch(), t.Round())
    ensures var c' := ApplyTransmit(c, transmitter, t, a);
            && Stamp(c) < Stamp(c')
            && c'.config.latestRoundId == c.config.latestRoundId + 1
            && c'.answers == c.answers + [Answer(a.report.median, a.report.timestamp)] && SameBounds(c, c')
  {}

  /** (epoch, round) and the round count move together, at accepted transmissions and nowhere else. */
  lemma OnlyTransmitAdvances(env: Env, c: Chain, ix: Ix)
    ensures var c' := Step(env, c, ix);
            if ix.Transmit? && Exec(env, c, ix).Ok? then
              && Stamp(c) < Stamp(c')
              && c'.config.latestRoundId == c.config.latestRoundId + 1
              && |c'.answers| == |c.answers| + 1 && c.answers <= c'.answers && SameBounds(c, c')
              && c.config.minAnswer <= c'.answers[|c.answers|].median <= c.config.maxAnswer
            else SameRound(c, c')
  {
    if Exec(env, c, ix).Ok? {
      match ix
      case OnProposal(other, authority, action) => ProposalFrame(c, other, authority, action);
      case AcceptProposal(other, authority, digest, payees, receiver, slot) =>
        AcceptFrame(env, c, other, authority, digest, payees, receiver, slot);
      case Transmit(transmitter, raw, sysvar, storeAccepts) =>
        var t := ParseTransmission(raw).value;
        TransmitAdvances(c, transmitter, t, CheckTransmit(env, c, transmitter, t, sysvar).value);
      case _ => OtherFrame(env, c, ix);
    }
  }

  /** The stamps of the transmissions a run accepted, oldest first. */
  ghost function AcceptedStamps(env: Env, c: Chain, ixs: seq<Ix>): seq<nat> {
    if ixs == [] then [] else
    var (before, ix) := (Run(env, c, ixs[..|ixs| - 1]), ixs[|ixs| - 1]);
    var earlier := AcceptedStamps(env, c, ixs[..|ixs| - 1]);
    if ix.Transmit? && Exec(env, before, ix).Ok? then earlier + [Stamp(Step(env, before, ix))] else earlier
  }

  /** Over every run, across reconfigurations: accepted stamps strictly increase,
      the last is the one on chain, and the round count is how many there were. */
  lemma {:induction false} StampsIncrease(env: Env, c: Chain, ixs: seq<Ix>)
    requires Initial(c)
    ensures var (stamps, now) := (AcceptedStamps(env, c, ixs), Run(env, c, ixs));
            && (forall i, j :: 0 <= i < j < |stamps| ==> stamps[i] < stamps[j])
            && |stamps| == now.config.latestRoundId == |now.answers|
            && (forall i :: 0 <= i < |stamps| ==> stamps[i] <= Stamp(now))
            && (stamps != [] ==> stamps[|stamps| - 1] == Stamp(now))
  {
    if ixs != [] {
      StampsIncrease(env, c, ixs[..|ixs| - 1]);
      OnlyTransmitAdvances(env, Run(env, c, ixs[..|ixs| - 1]), ixs[|ixs| - 1]);
    }
  }

  /** Over every run: the bounds are the initial ones, every answer submitted to the feed lies
      within them, and no answer is ever rewritten. */
  lemma {:induction false} AnswersInRange(env: Env, c: Chain, ixs: seq<Ix>)
    requires Initial(c)
    ensures var now := Run(env, c, ixs);
            && SameBounds(c, now)
            && (forall i :: 0 <= i < |now.answers| ==>
                c.config.minAnswer <= now.answers[i].median <= c.config.maxAnswer)
            && (ixs != [] ==> Run(env, c, ixs[..|ixs| - 1]).answers <= now.answers)
  {
    if ixs != [] {
      AnswersInRange(env, c, ixs[..|ixs| - 1]);
      OnlyTransmitAdvances(env, Run(env, c, ixs[..|ixs| - 1]), ixs[|ixs| - 1]);
    }
  }

  // ----- Proposals

  predicate Closes(ix: Ix, key: Bytes32) {
    || (ix.OnProposal? && ix.proposalIx.CloseProposal? && ix.proposal == key)
    || (ix.AcceptProposal? && ix.proposal == key)
  }

  /** A finalized proposal stays as it is until it is closed, by its owner or by being accepted. */
  lemma FinalizedFrozen(env: Env, c: Chain, ix: Ix, key: Bytes32)
    requires key in c.proposals && c.proposals[key].finalized
    ensures var c' := Step(env, c, ix);
            || (key in c'.proposals && c'.proposals[key] == c.proposals[key])
            || (key !in c'.proposals && Closes(ix, key))
  {
    if Exec(env, c, ix).Ok? {
      match ix
      case OnProposal(other, authority, action) => ProposalFrame(c, other, authority, action);
      case AcceptProposal(other, authority, digest, payees, receiver, slot) =>
        AcceptFrame(env, c, other, authority, digest, payees, receiver, slot);
      case Transmit(_, _, _, _) =>
      case _ => OtherFrame(env, c, ix);
    }
  }

  /** Over every run in which no attempt to close or accept it succeeds, it stays as it is. */
  lemma {:induction false} FinalizedUntilClosed(env: Env, c: Chain, ixs: seq<Ix>, key: Bytes32)
    requires key in c.proposals && c.proposals[key].finalized
    requires forall i :: 0 <= i < |ixs| ==> !(Closes(ixs[i], key) && Exec(env, Run(env, c, ixs[..i]), ixs[i]).Ok?)
    ensures key in Run(env, c, ixs).proposals && Run(env, c, ixs).proposals[key] == c.proposals[key]
  {
    if ixs != [] {
      var n := |ixs| - 1;
      forall i | 0 <= i < n
        ensures !(Closes(ixs[..n][i], key) && Exec(env, Run(env, c, ixs[..n][..i]), ixs[..n][i]).Ok?)
      {
        assert ixs[..n][..i] == ixs[..i];
      }
      FinalizedUntilClosed(env, c, ixs[..n], key);
      FinalizedFrozen(env, Run(env, c, ixs[..n]), ixs[n], key);
    }
  }

  ghost predicate NoCollision(env: Env, a: seq<byte>, b: seq<byte>) {
    env.hash(a) == env.hash(b) ==> a == b
  }

  /** If SHA-256 does not collide on them, the digest the owner signs fixes the installed
      configuration: it is the one of whichever proposal that digest was computed from. */
  lemma DigestPinsConfig(env: Env, c: Chain, ix: Ix, reviewed: Proposal)
    requires Inv(c) && ix.AcceptProposal? && Exec(env, c, ix).Ok?
    requires ProposalSized(reviewed) && ix.digest == env.hash(ProposalPreimage(reviewed))
    requires NoCollision(env, ProposalPreimage(c.proposals[ix.proposal]), ProposalPreimage(reviewed))
    ensures var c' := Exec(env, c, ix).value.chain;
            && c'.offchain == reviewed.offchain && c'.config.f == reviewed.f
            && c'.oracles == Accepted(reviewed.oracles, c.config.latestRoundId)
            && c.config.tokenMint == reviewed.tokenMint
            && AllPayeesSet(reviewed.oracles)
  {
    var p := c.proposals[ix.proposal];
    assert ProposalOk(p);
    PayFrame(c, ix.payees, ix.receiver);
    ProposalPreimageInjective(p, reviewed);
  }
}

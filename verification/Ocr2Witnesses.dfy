/** Concrete runs and states: what the other theorems speak of does occur. */
module Ocr2Witnesses {
  import opened Bytes
  import opened Collections
  import opened Ocr2Types
  import opened Encodings
  import opened Sorting
  import opened Ocr2
  import opened Ocr2Invariants
  import opened Ocr2Ledger
  import opened Ocr2Solvency
  import opened Ocr2Stuck
  import Report
  import ComputeBudget
  import BitMask

  // ----- Four oracles

  const PROPOSAL: Bytes32 := NumberedKey(9)

  function NewOracles(): (r: seq<NewOracle>)
    ensures |r| == 4
  {
    seq(4, i requires 0 <= i < 4 => NewOracle(NumberedAddress(i), NumberedKey(10 + i)))
  }

  function Payees(): (r: seq<Bytes32>)
    ensures |r| == 4
  {
    seq(4, i requires 0 <= i < 4 => NumberedKey(20 + i))
  }

  function FourOracles(): (r: seq<ProposedOracle>)
    ensures |r| == 4
  {
    WithPayees(Proposed(NewOracles()), Payees())
  }

  lemma NumberedInOrder(i: byte, j: byte)
    requires i < j
    ensures Less(NumberedAddress(i), NumberedAddress(j)) && NumberedKey(i) != NumberedKey(j)
  {
    assert NumberedKey(i)[0] != NumberedKey(j)[0];
  }

  lemma FourSorted()
    ensures StrictlySorted(ProposedSigners(Proposed(NewOracles())))
    ensures Distinct(ProposedTransmitters(Proposed(NewOracles())))
  {
    var (signers, transmitters) := (ProposedSigners(Proposed(NewOracles())),
                                    ProposedTransmitters(Proposed(NewOracles())));
    forall i, j | 0 <= i < j < 4
      ensures Less(signers[i], signers[j]) && transmitters[i] != transmitters[j]
    {
      NumberedInOrder(i, j);
      NumberedInOrder(10 + i, 10 + j);
    }
  }

  lemma FourPayeesSet()
    ensures AllPayeesSet(FourOracles())
  {
    forall i | 0 <= i < 4
      ensures FourOracles()[i].payee != DEFAULT_KEY
    {
      assert NumberedKey(20 + i)[0] != DEFAULT_KEY[0];
    }
  }

  // ----- A run that gets an oracle stuck

  /** A fresh aggregator with the token accounts it needs. */
  ghost predicate Ready(c: Chain, receiver: Bytes32) {
    && Initial(c) && ValidReceiver(c, receiver) && AllOfMint(c.tokens, Payees(), c.config.tokenMint)
    && c.config.minAnswer <= 0 <= c.config.maxAnswer
  }

  /** Signatures that name their signer by the recovery id; the hash is arbitrary. */
  ghost predicate RecoversById(env: Env) {
    forall message, signature, id :: env.recover(message, signature, id) == Ok(NumberedAddress(id))
  }

  function Draft(c: Chain, p: Proposal): Chain {
    c.(proposals := map[PROPOSAL := p])
  }

  function Edit(c: Chain, ix: ProposalIx): Ix {
    OnProposal(PROPOSAL, c.config.owner, ix)
  }

  function Started(c: Chain): Proposal {
    Proposal(STATE_VERSION, c.config.owner, false, 0, DEFAULT_KEY, [], OffchainConfig(1, []))
  }

  function Configured(c: Chain): Proposal {
    Started(c).(oracles := Proposed(NewOracles()), f := 1)
  }

  function WithPayeesSet(c: Chain): Proposal {
    Configured(c).(oracles := FourOracles(), tokenMint := c.config.tokenMint)
  }

  function Written(c: Chain): Proposal {
    WithPayeesSet(c).(offchain := OffchainConfig(1, [0]))
  }

  function Finished(c: Chain): Proposal {
    Written(c).(finalized := true)
  }

  lemma Extend(env: Env, c: Chain, ixs: seq<Ix>, ix: Ix)
    ensures Run(env, c, ixs + [ix]) == Step(env, Run(env, c, ixs), ix)
  {
    assert (ixs + [ix])[..|ixs|] == ixs;
  }

  lemma ConfigProposed(p: Proposal)
    requires !p.finalized && p.offchain.version != 0
    ensures ProposeConfigImpl(p, NewOracles(), 1) == Ok(p.(oracles := Proposed(NewOracles()), f := 1))
  {
    var oracles := Proposed(NewOracles());
    FourSorted();
    var (signers, transmitters) := (ProposedSigners(oracles), ProposedTransmitters(oracles));
    forall i, j | 0 <= i < j < 4
      ensures SignerRank(oracles[i]) <= SignerRank(oracles[j])
      ensures oracles[i].signer != oracles[j].signer && oracles[i].transmitter != oracles[j].transmitter
    {
      assert Less(signers[i], signers[j]) && transmitters[i] != transmitters[j];
      LessIsNumeric(oracles[i].signer, oracles[j].signer);
      LessIrreflexive(oracles[i].signer);
    }
    SortByAscending(oracles, SignerRank);
  }

  /** An instruction of the owner takes the draft from `p` to `p'`. */
  lemma Edited(env: Env, c: Chain, ixs: seq<Ix>, p: Proposal, ix: ProposalIx, p': Proposal)
    requires Run(env, c, ixs) == Draft(c, p)
    requires ExecOnProposal(Draft(c, p), PROPOSAL, c.config.owner, ix) == WithProposal(Draft(c, p), PROPOSAL, p')
    ensures Run(env, c, ixs + [Edit(c, ix)]) == Draft(c, p')
  {
    Extend(env, c, ixs, Edit(c, ix));
    assert Draft(c, p).(proposals := Draft(c, p).proposals[PROPOSAL := p']) == Draft(c, p');
  }

  lemma RunCreates(env: Env, c: Chain)
    requires Initial(c)
    ensures Run(env, c, [Edit(c, CreateProposal(1))]) == Draft(c, Started(c))
  {
    Extend(env, c, [], Edit(c, CreateProposal(1)));
    assert [] + [Edit(c, CreateProposal(1))] == [Edit(c, CreateProposal(1))];
    assert map[][PROPOSAL := Started(c)] == map[PROPOSAL := Started(c)];
  }

  lemma ProposeExec(d: Chain, authority: Bytes32, p: Proposal, p': Proposal)
    requires Owned(d, PROPOSAL, authority) == Ok(p) && ProposeConfigImpl(p, NewOracles(), 1) == Ok(p')
    ensures ExecOnProposal(d, PROPOSAL, authority, ProposalIx.ProposeConfig(NewOracles(), 1))
            == WithProposal(d, PROPOSAL, p')
  {}

  lemma RunConfigures(env: Env, c: Chain, ixs: seq<Ix>)
    requires Run(env, c, ixs) == Draft(c, Started(c))
    ensures Run(env, c, ixs + [Edit(c, ProposalIx.ProposeConfig(NewOracles(), 1))]) == Draft(c, Configured(c))
  {
    ConfigProposed(Started(c));
    ProposeExec(Draft(c, Started(c)), c.config.owner, Started(c), Configured(c));
    Edited(env, c, ixs, Started(c), ProposalIx.ProposeConfig(NewOracles(), 1), Configured(c));
  }

  lemma RunSetsPayees(env: Env, c: Chain, ixs: seq<Ix>)
    requires AllOfMint(c.tokens, Payees(), c.config.tokenMint) && Run(env, c, ixs) == Draft(c, Configured(c))
    ensures Run(env, c, ixs + [Edit(c, ProposePayees(Payees(), c.config.tokenMint))]) == Draft(c, WithPayeesSet(c))
  {
    Edited(env, c, ixs, Configured(c), ProposePayees(Payees(), c.config.tokenMint), WithPayeesSet(c));
  }

  lemma RunWrites(env: Env, c: Chain, ixs: seq<Ix>)
    requires Run(env, c, ixs) == Draft(c, WithPayeesSet(c))
    ensures Run(env, c, ixs + [Edit(c, WriteOffchainConfig([0]))]) == Draft(c, Written(c))
  {
    assert [] + [0] == [0];
    Edited(env, c, ixs, WithPayeesSet(c), WriteOffchainConfig([0]), Written(c));
  }

  lemma RunFinalizes(env: Env, c: Chain, ixs: seq<Ix>)
    requires Run(env, c, ixs) == Draft(c, Written(c))
    ensures Run(env, c, ixs + [Edit(c, FinalizeProposal)]) == Draft(c, Finished(c))
  {
    FourPayeesSet();
    Edited(env, c, ixs, Written(c), FinalizeProposal, Finished(c));
  }

  /** Five instructions write and finalize a proposal of the four oracles. */
  lemma Drafted(env: Env, c: Chain, receiver: Bytes32) returns (ixs: seq<Ix>)
    requires Ready(c, receiver)
    ensures |ixs| == 5 && Run(env, c, ixs) == Draft(c, Finished(c))
  {
    ixs := [Edit(c, CreateProposal(1))];
    RunCreates(env, c);
    RunConfigures(env, c, ixs);
    ixs := ixs + [Edit(c, ProposalIx.ProposeConfig(NewOracles(), 1))];
    RunSetsPayees(env, c, ixs);
    ixs := ixs + [Edit(c, ProposePayees(Payees(), c.config.tokenMint))];
    RunWrites(env, c, ixs);
    ixs := ixs + [Edit(c, WriteOffchainConfig([0]))];
    RunFinalizes(env, c, ixs);
    ixs := ixs + [Edit(c, FinalizeProposal)];
  }

  // ----- Accept, set the rate, transmit

  function Installed(env: Env, c: Chain, rate: u32): Chain
    requires c.config.configCount < U32_MAX
  {
    var oracles := Accepted(FourOracles(), c.config.latestRoundId);
    var config := InstalledConfig(env, c.config, Finished(c), 0, oracles);
    c.(config := config.(billing := config.billing.(observation := rate)), offchain := Finished(c).offchain,
       oracles := oracles)
  }

  function Accept(env: Env, c: Chain, receiver: Bytes32): Ix {
    AcceptProposal(PROPOSAL, c.config.owner, env.hash(ProposalPreimage(Finished(c))), [], receiver, 0)
  }

  lemma AcceptInstalls(env: Env, c: Chain, receiver: Bytes32)
    requires Ready(c, receiver)
    ensures Step(env, Draft(c, Finished(c)), Accept(env, c, receiver)) == Installed(env, c, 0)
  {
    var d := Draft(c, Finished(c));
    assert Settled(d.oracles, d.config.latestRoundId) == d.oracles;
    assert PayOraclesImpl(d, [], receiver) == Ok(Effect(d, []));
    assert d.proposals - {PROPOSAL} == c.proposals;
  }

  function SetRate(c: Chain, receiver: Bytes32): Ix {
    Bill(c.config.owner, c.config.billingController, SetBilling(Billing(1, 0), Payees(), receiver))
  }

  lemma NothingToPay(c: Chain, payees: seq<Bytes32>, receiver: Bytes32)
    requires ValidReceiver(c, receiver) && ListsPayees(c.oracles, payees)
    requires Settled(c.oracles, c.config.latestRoundId) == c.oracles
    ensures PayOraclesImpl(c, payees, receiver).Ok? && PayOraclesImpl(c, payees, receiver).value.chain == c
  {
    SettledDueNothing(c.config, c.oracles);
    forall i | 0 <= i < |c.oracles|
      ensures c.oracles[i].fromRoundId == c.config.latestRoundId
    {
      assert Settled(c.oracles, c.config.latestRoundId)[i] == c.oracles[i];
    }
    CoveredFits(c);
    SettleExact(c, payees, receiver);
    SettleTotal(c.config, c.oracles, payees, c.tokens, receiver);
    ZeroPayments(c.tokens, c.config.tokenVault, Settle(c.config, c.oracles, payees, c.tokens, receiver).value);
  }

  lemma NewlyAccepted(latestRoundId: u32)
    ensures var oracles := Accepted(FourOracles(), latestRoundId);
            Settled(oracles, latestRoundId) == oracles && ListsPayees(oracles, Payees())
  {}

  lemma RateSet(env: Env, c: Chain, receiver: Bytes32)
    requires Ready(c, receiver)
    ensures Step(env, Installed(env, c, 0), SetRate(c, receiver)) == Installed(env, c, 1)
  {
    NewlyAccepted(c.config.latestRoundId);
    NothingToPay(Installed(env, c, 0), Payees(), receiver);
    RateExec(env, Installed(env, c, 0), Payees(), receiver);
  }

  lemma RateExec(env: Env, d: Chain, payees: seq<Bytes32>, receiver: Bytes32)
    requires PayOraclesImpl(d, payees, receiver).Ok? && PayOraclesImpl(d, payees, receiver).value.chain == d
    ensures var ix := Bill(d.config.owner, d.config.billingController, SetBilling(Billing(1, 0), payees, receiver));
            Step(env, d, ix) == d.(config := d.config.(billing := Billing(1, 0)))
  {}

  // ----- The report

  function Context(digest: Bytes32): (r: seq<byte>)
    ensures |r| == CONTEXT_LEN
  {
    digest + Repeat(0, 31) + [1] + Repeat(0, 32)
  }

  /** The median 0 of two observations, and the price -1 per lamport. */
  function NegativePrice(): (r: seq<byte>)
    ensures |r| == Report.REPORT_LEN
  {
    PowValues();
    Report.Layout(0, 2, Repeat(0, 32), 0, -1)
  }

  function TwoSignatures(): (r: seq<byte>)
    ensures |r| == 2 * SIGNATURE_LEN
  {
    Repeat(0, 64) + [0] + Repeat(0, 64) + [1]
  }

  function Raw(digest: Bytes32): seq<byte> {
    [0] + Context(digest) + NegativePrice() + TwoSignatures()
  }

  function Sent(digest: Bytes32): Transmission {
    Transmission(Context(digest), NegativePrice(), TwoSignatures())
  }

  lemma RawParses(digest: Bytes32)
    ensures ParseTransmission(Raw(digest)) == Ok(Sent(digest))
    ensures Sent(digest).ConfigDigest() == digest && Sent(digest).Round() == 1
  {
    var raw := Raw(digest);
    assert raw[1..97] == Context(digest);
    assert raw[97..158] == NegativePrice();
    assert raw[158..] == TwoSignatures();
  }

  lemma NextSigner(env: Env, oracles: seq<Oracle>, t: Transmission, k: byte, front: seq<nat>)
    requires RecoversById(env) && t.Sized() && k < t.SignatureCount() && t.Signature(k).1 == k
    requires SignerIndices(env, oracles, t, k) == Ok(front) && FindSigner(oracles, NumberedAddress(k)) == Some(k)
    ensures SignerIndices(env, oracles, t, k + 1) == Ok(front + [k])
  {}

  lemma FirstTwoSign(env: Env, oracles: seq<Oracle>, digest: Bytes32)
    requires RecoversById(env) && 2 <= |oracles| <= MAX_ORACLES
    requires oracles[0].signer == NumberedAddress(0) && oracles[1].signer == NumberedAddress(1)
    ensures VerifySignatures(env, oracles, 1, Sent(digest)).Ok?
  {
    var t := Sent(digest);
    SecondFound(oracles);
    NextSigner(env, oracles, t, 0, []);
    assert [] + [0] == [0];
    assert TwoSignatures()[129] == 1;
    NextSigner(env, oracles, t, 1, [0]);
    var indices := [0] + [1];
    assert indices[0] == 0 && indices[1] == 1;
    BitMask.CountOnesIsDistinct(indices);
    TwoElements(indices);
  }

  lemma TwoElements(indices: seq<nat>)
    requires |indices| == 2 && indices[0] != indices[1]
    ensures |BitMask.Elements(indices)| == 2
  {
    assert BitMask.Elements(indices) == {indices[0], indices[1]};
  }

  lemma SecondFound(oracles: seq<Oracle>)
    requires |oracles| >= 2 && oracles[0].signer == NumberedAddress(0) && oracles[1].signer == NumberedAddress(1)
    ensures FindSigner(oracles, NumberedAddress(1)) == Some(1)
  {
    assert NumberedAddress(0)[0] != NumberedAddress(1)[0];
    assert oracles[1..][0] == oracles[1];
  }

  /** What the report needs of the aggregator. */
  ghost predicate TakesReport(d: Chain) {
    && d.config.f == 1 && 2 <= |d.oracles| <= MAX_ORACLES
    && d.oracles[0].signer == NumberedAddress(0) && d.oracles[1].signer == NumberedAddress(1)
    && d.oracles[0].transmitter == NumberedKey(10)
    && d.config.epoch == 0 && d.config.round == 0 && d.config.latestRoundId < U32_MAX
    && d.config.minAnswer <= 0 <= d.config.maxAnswer
  }

  lemma InstalledTakesReport(env: Env, c: Chain, receiver: Bytes32)
    requires Ready(c, receiver)
    ensures var d := Installed(env, c, 1);
            TakesReport(d) && NotAhead(d.oracles, d.config.latestRoundId) && d.config.billing.observation == 1
  {}

  /** The transaction around a report, before the node puts the price in front of it. */
  ghost predicate Sendable(m: ComputeBudget.Message) {
    ComputeBudget.WellFormed(m) && ComputeBudget.NoBudget(m) && m.instructions != []
  }

  function Priced(m: ComputeBudget.Message): Option<ComputeBudget.Sysvar> {
    Some(ComputeBudget.Sysvar(ComputeBudget.Prepared(m, 0, U64_MAX), 1))
  }

  lemma PriceIs(m: ComputeBudget.Message)
    requires Sendable(m)
    ensures UnitPrice(Priced(m)) == Ok(Some(U64_MAX))
  {
    ComputeBudget.PriceReadBack(m, 0, U64_MAX);
  }

  lemma NegativePriceIs()
    ensures Report.Unpack(NegativePrice()).Ok?
    ensures var report := Report.Unpack(NegativePrice()).value;
            report.median == 0 && report.observerCount == 2 && report.juelsPerLamport == U64_MAX
  {
    PowValues();
    Report.UnpackLayout(0, 2, Repeat(0, 32), 0, -1);
  }

  lemma ChecksPass(env: Env, d: Chain, t: Transmission, sysvar: Option<ComputeBudget.Sysvar>)
    requires TakesReport(d) && t.Sized() && t.ConfigDigest() == d.config.configDigest && t.Round() == 1
    requires VerifySignatures(env, d.oracles, 1, t).Ok? && UnitPrice(sysvar).Ok?
    requires Report.Unpack(t.report).Ok? && Report.Unpack(t.report).value.median == 0
    requires Report.Unpack(t.report).value.observerCount == 2
    ensures var r := CheckTransmit(env, d, NumberedKey(10), t, sysvar);
            r.Ok? && r.value.transmitter == 0 && r.value.report == Report.Unpack(t.report).value
  {
    assert FindTransmitter(d.oracles, NumberedKey(10)) == Some(0);
  }

  function NegativeReport(digest: Bytes32, m: ComputeBudget.Message): Ix {
    Transmit(NumberedKey(10), Raw(digest), Priced(m), true)
  }

  lemma ReportChecks(env: Env, d: Chain, m: ComputeBudget.Message)
    requires TakesReport(d) && RecoversById(env) && Sendable(m)
    ensures var r := CheckTransmit(env, d, NumberedKey(10), Sent(d.config.configDigest), Priced(m));
            r.Ok? && r.value.transmitter == 0 && r.value.report.juelsPerLamport == U64_MAX
  {
    RawParses(d.config.configDigest);
    FirstTwoSign(env, d.oracles, d.config.configDigest);
    NegativePriceIs();
    PriceIs(m);
    ChecksPass(env, d, Sent(d.config.configDigest), Priced(m));
  }

  lemma ReportAccepted(env: Env, d: Chain, m: ComputeBudget.Message)
    requires TakesReport(d) && RecoversById(env) && Sendable(m)
    ensures var ix := NegativeReport(d.config.configDigest, m);
            && Exec(env, d, ix).Ok? && AcceptanceOf(env, d, ix).transmitter == 0
            && AcceptanceOf(env, d, ix).report.juelsPerLamport == U64_MAX
  {
    RawParses(d.config.configDigest);
    ReportChecks(env, d, m);
    TransmitExec(env, d, NumberedKey(10), Raw(d.config.configDigest), Priced(m), Sent(d.config.configDigest));
  }

  lemma TransmitExec(env: Env, d: Chain, transmitter: Bytes32, raw: seq<byte>, sysvar: Option<ComputeBudget.Sysvar>,
                     t: Transmission)
    requires ParseTransmission(raw) == Ok(t) && CheckTransmit(env, d, transmitter, t, sysvar).Ok?
    ensures var ix := Transmit(transmitter, raw, sysvar, true);
            Exec(env, d, ix).Ok? && Ok(AcceptanceOf(env, d, ix)) == CheckTransmit(env, d, transmitter, t, sysvar)
  {}

  lemma ReportSticks(env: Env, d: Chain, m: ComputeBudget.Message)
    requires TakesReport(d) && NotAhead(d.oracles, d.config.latestRoundId) && d.config.billing.observation > 0
    requires RecoversById(env) && Sendable(m)
    ensures var ix := NegativeReport(d.config.configDigest, m); Exec(env, d, ix).Ok? && Stuck(Step(env, d, ix), 0)
  {
    PriceIs(m);
    ReportAccepted(env, d, m);
    OneReportSticks(env, d, NegativeReport(d.config.configDigest, m));
  }

  /** From every fresh aggregator with the accounts it needs, whatever the hash: a proposal of four oracles is
      drafted and accepted, a rate is set, one report with a negative price is transmitted, and an oracle is stuck. */
  lemma StuckReachable(env: Env, c: Chain, receiver: Bytes32, m: ComputeBudget.Message) returns (ixs: seq<Ix>)
    requires Ready(c, receiver) && RecoversById(env) && Sendable(m)
    ensures |ixs| == 8 && ixs[7].Transmit? && Exec(env, Run(env, c, ixs[..7]), ixs[7]).Ok?
    ensures Stuck(Run(env, c, ixs), 0)
  {
    ixs := RateAgreed(env, c, receiver);
    var d := Installed(env, c, 1);
    var ix := NegativeReport(d.config.configDigest, m);
    InstalledTakesReport(env, c, receiver);
    ReportSticks(env, d, m);
    Extend(env, c, ixs, ix);
    assert (ixs + [ix])[..7] == ixs;
    ixs := ixs + [ix];
  }

  lemma RateAgreed(env: Env, c: Chain, receiver: Bytes32) returns (ixs: seq<Ix>)
    requires Ready(c, receiver)
    ensures |ixs| == 7 && Run(env, c, ixs) == Installed(env, c, 1)
  {
    ixs := Drafted(env, c, receiver);
    Extend(env, c, ixs, Accept(env, c, receiver));
    AcceptInstalls(env, c, receiver);
    ixs := ixs + [Accept(env, c, receiver)];
    Extend(env, c, ixs, SetRate(c, receiver));
    RateSet(env, c, receiver);
    ixs := ixs + [SetRate(c, receiver)];
  }

  const OWNER: Bytes32 := NumberedKey(1)
  const MINT: Bytes32 := NumberedKey(2)
  const VAULT: Bytes32 := NumberedKey(3)
  const RECEIVER: Bytes32 := NumberedKey(4)

  function TokenKeys(): set<Bytes32> {
    {VAULT, RECEIVER} + set key | key in Payees()
  }

  /** A fresh aggregator whose vault, receiver and payees are empty token accounts of one mint. */
  function Fresh(): Chain {
    var config := Config(OWNER, DEFAULT_KEY, MINT, VAULT, DEFAULT_KEY, DEFAULT_KEY, 0, 1, 0, 0, 0, 0, DEFAULT_KEY,
                         0, DEFAULT_KEY, 0, Billing(0, 0));
    Chain(STATE_VERSION, config, OffchainConfig(0, []), [], map[],
          map key: Bytes32 | key in TokenKeys() :: TokenAccount(MINT, OWNER, 0), map[], [])
  }

  lemma FreshIsReady()
    ensures Ready(Fresh(), RECEIVER)
  {}

  /** Such a run exists. */
  lemma StuckRun(hash: seq<byte> -> Bytes32) returns (env: Env, ixs: seq<Ix>)
    ensures env.hash == hash && Initial(Fresh()) && Stuck(Run(env, Fresh(), ixs), 0)
  {
    env := Env(NumberedKey(5), NumberedKey(6), hash, (message, signature, id) => Ok(NumberedAddress(id)));
    var m := ComputeBudget.Message([DEFAULT_KEY], 0, [ComputeBudget.Instruction(0, [], [])]);
    assert DEFAULT_KEY[0] != ComputeBudget.COMPUTE_BUDGET[0];
    FreshIsReady();
    ixs := StuckReachable(env, Fresh(), RECEIVER, m);
  }

  // ----- Totals that fail or wrap

  /** The aggregator after some rounds, with four oracles owed since round `from`. */
  function FourOwed(latestRoundId: u32, from: u32, payment: u64): (c: Chain)
    requires from <= latestRoundId
  {
    var fresh' := Fresh();
    fresh'.(config := fresh'.config.(f := 1, latestRoundId := latestRoundId, billing := Billing(1, 0)),
            oracles := FourPaid(from, payment),
            answers := seq(latestRoundId, i => Answer(0, 0)))
  }

  function FourPaid(from: u32, payment: u64): (r: seq<Oracle>)
    ensures |r| == 4
  {
    seq(4, i requires 0 <= i < 4 => Accepted(FourOracles(), from)[i].(payment := payment))
  }

  lemma FourOwedInv(latestRoundId: u32, from: u32, payment: u64)
    requires from <= latestRoundId
    ensures Inv(FourOwed(latestRoundId, from, payment))
  {
    FourSorted();
    var c := FourOwed(latestRoundId, from, payment);
    assert Signers(c.oracles) == ProposedSigners(Proposed(NewOracles()));
    assert Transmitters(c.oracles) == ProposedTransmitters(Proposed(NewOracles()));
  }

  lemma {:induction false} AlikeSums(oracles: seq<Oracle>, latest: nat, from: u32, payment: u64)
    requires forall i :: 0 <= i < |oracles| ==> oracles[i].fromRoundId == from && oracles[i].payment == payment
    ensures SumRounds(oracles, latest) == |oracles| * (latest - from) && SumPayments(oracles) == |oracles| * payment
  {
    if oracles != [] {
      AlikeSums(oracles[..|oracles| - 1], latest, from, payment);
      Distribute(latest - from, |oracles|, 1);
      Distribute(payment, |oracles|, 1);
    }
  }

  lemma FourOwedSums(latestRoundId: u32, from: u32, payment: u64)
    requires from <= latestRoundId
    ensures var c := FourOwed(latestRoundId, from, payment);
            && SumRounds(c.oracles, latestRoundId) == 4 * (latestRoundId - from)
            && Due(c.config, c.oracles) == 4 * (latestRoundId - from) + 4 * payment
  {
    var c := FourOwed(latestRoundId, from, payment);
    AlikeSums(c.oracles, latestRoundId, from, payment);
    DueSplits(c.config, c.oracles);
  }

  /** Four oracles and 2^30 rounds at one gjuel: the sum due is far from 64 bits, and the program's total fails. */
  lemma TotalDueFailsEarly() returns (c: Chain)
    ensures Inv(c) && |c.oracles| == 4
    ensures Due(c.config, c.oracles) == 0x1_0000_0000 && TotalDue(c.config, c.oracles).Err?
  {
    c := FourOwed(0x4000_0000, 0, 0);
    FourOwedInv(0x4000_0000, 0, 0);
    FourOwedSums(0x4000_0000, 0, 0);
    TotalDueExact(c.config, c.oracles);
  }

  /** Four oracles owed 2^62 each: the monitor reports the whole balance as available. */
  method ReportsNothingDue(balance: int) returns (c: Chain, r: Result<int>)
    ensures Inv(c) && |c.oracles| == 4 && Due(c.config, c.oracles) == TWO_64
    ensures r == Ok(balance)
  {
    c := FourOwed(0, 0, 0x4000_0000_0000_0000);
    FourOwedInv(0, 0, 0x4000_0000_0000_0000);
    FourOwedSums(0, 0, 0x4000_0000_0000_0000);
    var oracles := c.oracles + seq(MAX_ORACLES - 4, i => c.oracles[0]);
    assert oracles[..4] == c.oracles;
    r := LinkAvailableForPayment(AccountState(c.config, oracles, 4, 0, Repeat(0, MAX_OFFCHAIN_CONFIG), 0), balance);
  }
}

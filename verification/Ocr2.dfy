/** The aggregator program: every instruction as a function from the accounts it
    can touch to its new accounts, or to an error that leaves them unchanged. */
module Ocr2 {
  import opened Bytes
  import opened Collections
  import opened Ocr2Types
  import opened Encodings
  import opened Sorting
  import Report
  import ComputeBudget
  import BitMask

  // ----- Accounts

  datatype Answer = Answer(median: int, timestamp: nat)

  /** The aggregator's account, its proposals, and the other programs' accounts it uses:
      token accounts, access lists, and the rounds submitted to its feed. */
  datatype Chain = Chain(
    version: byte, config: Config, offchain: OffchainConfig, oracles: seq<Oracle>,
    proposals: map<Bytes32, Proposal>,
    tokens: map<Bytes32, TokenAccount>,
    controllers: map<Bytes32, set<Bytes32>>,
    answers: seq<Answer>)

  /** Identity of the deployment, SHA-256, and key recovery: message, signature, recovery id to address. */
  datatype Env = Env(
    programId: Bytes32, stateId: Bytes32,
    hash: seq<byte> -> Bytes32,
    recover: (seq<byte>, seq<byte>, byte) -> Result<Address>)

  /** A transfer out of the vault on the account of the oracle at an index. */
  datatype Payment = Payment(oracle: nat, to: Bytes32, amount: nat)

  datatype Effect = Effect(chain: Chain, payments: seq<Payment>)

  datatype NewOracle = NewOracle(signer: Address, transmitter: Bytes32)

  /** Instructions on a proposal, signed by its owner. */
  datatype ProposalIx =
    | CreateProposal(configVersion: u64)
    | WriteOffchainConfig(data: seq<byte>)
    | FinalizeProposal
    | CloseProposal
    | ProposeConfig(newOracles: seq<NewOracle>, newF: byte)
    | ProposePayees(payees: seq<Bytes32>, tokenMint: Bytes32)

  /** Instructions that only set keys, signed by the owner (or the proposed one). */
  datatype AdminIx =
    | TransferOwnership(proposedOwner: Bytes32)
    | AcceptOwnership
    | SetRequesterController(controller: Bytes32)
    | SetBillingController(controller: Bytes32)

  /** Instructions that need billing access. */
  datatype BillingIx =
    | SetBilling(billing: Billing, payees: seq<Bytes32>, receiver: Bytes32)
    | PayOracles(payees: seq<Bytes32>, receiver: Bytes32)
    | WithdrawFunds(recipient: Bytes32, amount: u64)

  datatype PayeeshipIx =
    | TransferPayeeship(payee: Bytes32, proposedPayee: Bytes32)
    | AcceptPayeeship(proposedPayee: Bytes32)

  /** What other programs' users do in between. */
  datatype OutsideIx =
    /** Anything with token accounts, except that only the program can debit the vault. */
    | TokenActivity(newTokens: map<Bytes32, TokenAccount>)
    | AccessActivity(newControllers: map<Bytes32, set<Bytes32>>)

  datatype Ix =
    | OnProposal(proposal: Bytes32, authority: Bytes32, proposalIx: ProposalIx)
    | AcceptProposal(proposal: Bytes32, authority: Bytes32, digest: seq<byte>, payees: seq<Bytes32>, receiver: Bytes32,
                     slot: nat)
    | Admin(authority: Bytes32, adminIx: AdminIx)
    | Transmit(transmitter: Bytes32, raw: seq<byte>, sysvar: Option<ComputeBudget.Sysvar>, storeAccepts: bool)
    | Bill(authority: Bytes32, controller: Bytes32, billingIx: BillingIx)
    | WithdrawPayment(authority: Bytes32, payee: Bytes32)
    | Payeeship(authority: Bytes32, transmitter: Bytes32, payeeshipIx: PayeeshipIx)
    | RequestNewRound(authority: Bytes32, controller: Bytes32)
    | Outside(outsideIx: OutsideIx)

  // ----- Tokens

  /** An SPL transfer: fails when an account is missing, mints differ or funds are short. */
  function TransferTokens(tokens: map<Bytes32, TokenAccount>, from: Bytes32, to: Bytes32, amount: nat)
    : Result<map<Bytes32, TokenAccount>>
  {
    if from !in tokens || to !in tokens then Err(TokenFailure)
    else if tokens[from].mint != tokens[to].mint then Err(TokenFailure)
    else if amount > tokens[from].amount then Err(TokenFailure)
    else if from == to then Ok(tokens)
    else if tokens[to].amount + amount > U64_MAX then Err(TokenFailure)
    else Ok(tokens[from := tokens[from].(amount := tokens[from].amount - amount)]
                  [to := tokens[to].(amount := tokens[to].amount + amount)])
  }

  /** The non-zero payments, in order. */
  function PayAll(tokens: map<Bytes32, TokenAccount>, vault: Bytes32, payments: seq<Payment>)
    : Result<map<Bytes32, TokenAccount>>
  {
    if payments == [] then Ok(tokens) else
    var n := |payments| - 1;
    var before :- PayAll(tokens, vault, payments[..n]);
    if payments[n].amount == 0 then Ok(before)
    else TransferTokens(before, vault, payments[n].to, payments[n].amount)
  }

  // ----- Billing

  /** `calculate_owed_payment_gjuels`. */
  function Owed(billing: Billing, oracle: Oracle, latestRoundId: nat): Result<nat> {
    if latestRoundId < oracle.fromRoundId then Err(Overflow) else
    var observations := billing.observation * (latestRoundId - oracle.fromRoundId);
    if observations > U64_MAX then Err(Overflow)
    else if observations + oracle.payment > U64_MAX then Err(Overflow)
    else Ok(observations + oracle.payment)
  }

  /** The fold of `calculate_total_link_due_gjuels`: unpaid rounds and reimbursements. */
  function UnpaidTotals(latestRoundId: nat, oracles: seq<Oracle>): Result<(nat, nat)> {
    if oracles == [] then Ok((0, 0)) else
    var n := |oracles| - 1;
    var (rounds, reimbursements) :- UnpaidTotals(latestRoundId, oracles[..n]);
    if latestRoundId < oracles[n].fromRoundId then Err(Overflow)
    else if rounds + (latestRoundId - oracles[n].fromRoundId) > U32_MAX then Err(Overflow)
    else if reimbursements + oracles[n].payment > U64_MAX then Err(Overflow)
    else Ok((rounds + (latestRoundId - oracles[n].fromRoundId), reimbursements + oracles[n].payment))
  }

  /** `calculate_total_link_due_gjuels`. */
  function TotalDue(config: Config, oracles: seq<Oracle>): Result<nat> {
    var (rounds, reimbursements) :- UnpaidTotals(config.latestRoundId, oracles);
    if config.billing.observation * rounds > U64_MAX then Err(Overflow)
    else if config.billing.observation * rounds + reimbursements > U64_MAX then Err(Overflow)
    else Ok(config.billing.observation * rounds + reimbursements)
  }

  /** One oracle's payment: to its payee, or to the receiver when that token account is gone. */
  function SettleOne(config: Config, index: nat, oracle: Oracle, payee: Bytes32,
                     tokens: map<Bytes32, TokenAccount>, receiver: Bytes32): Result<Payment>
  {
    if oracle.payee != payee then Err(InvalidInput) else
    var amount :- Owed(config.billing, oracle, config.latestRoundId);
    var usable := payee in tokens && tokens[payee].mint == config.tokenMint;
    Ok(Payment(index, if usable then payee else receiver, amount))
  }

  function Settle(config: Config, oracles: seq<Oracle>, payees: seq<Bytes32>,
                  tokens: map<Bytes32, TokenAccount>, receiver: Bytes32): (r: Result<seq<Payment>>)
    requires |oracles| == |payees|
    ensures r.Ok? ==> |r.value| == |oracles|
  {
    if oracles == [] then Ok([]) else
    var n := |oracles| - 1;
    var front :- Settle(config, oracles[..n], payees[..n], tokens, receiver);
    var last :- SettleOne(config, n, oracles[n], payees[n], tokens, receiver);
    Ok(front + [last])
  }

  /** Every oracle's account settled up to a round. */
  function Settled(oracles: seq<Oracle>, latestRoundId: u32): (r: seq<Oracle>)
    ensures |r| == |oracles|
  {
    seq(|oracles|, i requires 0 <= i < |oracles| => oracles[i].(payment := 0, fromRoundId := latestRoundId))
  }

  /** `pay_oracles_impl`. */
  function PayOraclesImpl(c: Chain, payees: seq<Bytes32>, receiver: Bytes32): Result<Effect> {
    if !ValidReceiver(c, receiver) then Err(InvalidTokenAccount)
    else if |payees| != |c.oracles| then Err(InvalidInput)
    else
      var payments :- Settle(c.config, c.oracles, payees, c.tokens, receiver);
      var tokens :- PayAll(c.tokens, c.config.tokenVault, payments);
      Ok(Effect(c.(oracles := Settled(c.oracles, c.config.latestRoundId), tokens := tokens), payments))
  }

  predicate ValidReceiver(c: Chain, receiver: Bytes32) {
    receiver in c.tokens && c.tokens[receiver].mint == c.config.tokenMint && c.config.tokenVault in c.tokens
  }

  /** `has_billing_access` and `has_requester_access`. */
  function Access(c: Chain, expected: Bytes32, controller: Bytes32, authority: Bytes32): Result<()> {
    if controller != expected then Err(InvalidInput)
    else if authority == c.config.owner then Ok(())
    else if controller !in c.controllers then Err(InvalidInput)
    else if authority in c.controllers[controller] then Ok(())
    else Err(Unauthorized)
  }

  // ----- Proposals

  function Propose(o: NewOracle): ProposedOracle {
    ProposedOracle(o.transmitter, o.signer, DEFAULT_KEY)
  }

  function Proposed(newOracles: seq<NewOracle>): (r: seq<ProposedOracle>)
    ensures |r| == |newOracles|
  {
    seq(|newOracles|, i requires 0 <= i < |newOracles| => Propose(newOracles[i]))
  }

  function ProposedSigners(oracles: seq<ProposedOracle>): (r: seq<Address>)
    ensures |r| == |oracles|
  {
    seq(|oracles|, i requires 0 <= i < |oracles| => oracles[i].signer)
  }

  /** The place of an oracle's signer in the byte-wise order of keys. */
  function SignerRank(o: ProposedOracle): int {
    FromBE(o.signer)
  }

  /** `sort_unstable_by_key` on the signer. */
  function SortOracles(s: seq<ProposedOracle>): (r: seq<ProposedOracle>)
    ensures |r| == |s| && multiset(r) == multiset(s) && AscendingBy(r, SignerRank)
  {
    var r := SortBy(s, SignerRank);
    SameSize(r, s);
    r
  }

  predicate HasDuplicateSigner(s: seq<ProposedOracle>) {
    exists i {:trigger s[i]} :: 0 <= i && i + 1 < |s| && s[i].signer == s[i + 1].signer
  }

  predicate HasDuplicateTransmitter(s: seq<ProposedOracle>) {
    exists i, j :: 0 <= i < j < |s| && s[i].transmitter == s[j].transmitter
  }

  /** A proposal account and its owner's signature, checked before any handler runs. */
  function Owned(c: Chain, key: Bytes32, authority: Bytes32): Result<Proposal> {
    if key !in c.proposals then Err(InvalidInput)
    else if c.proposals[key].owner != authority then Err(Unauthorized)
    else Ok(c.proposals[key])
  }

  /** A proposal the signer may still edit. */
  function Editable(c: Chain, key: Bytes32, authority: Bytes32): Result<Proposal> {
    var p :- Owned(c, key, authority);
    if p.finalized then Err(InvalidInput) else Ok(p)
  }

  function ProposeConfigImpl(p: Proposal, newOracles: seq<NewOracle>, f: byte): Result<Proposal> {
    if f == 0 then Err(InvalidInput)
    else if |newOracles| > MAX_ORACLES then Err(TooManyOracles)
    else if 3 * f >= |newOracles| then Err(InvalidInput)
    else if p.finalized then Err(InvalidInput)
    else if p.offchain.version == 0 then Err(InvalidInput)
    else
    var oracles := SortOracles(Proposed(newOracles));
    if HasDuplicateSigner(oracles) then Err(DuplicateSigner)
    else if HasDuplicateTransmitter(oracles) then Err(DuplicateTransmitter)
    else Ok(p.(oracles := oracles, f := f))
  }

  function WithPayees(oracles: seq<ProposedOracle>, payees: seq<Bytes32>): (r: seq<ProposedOracle>)
    requires |oracles| == |payees|
    ensures |r| == |oracles|
  {
    seq(|oracles|, i requires 0 <= i < |oracles| => oracles[i].(payee := payees[i]))
  }

  predicate AllOfMint(tokens: map<Bytes32, TokenAccount>, keys: seq<Bytes32>, mint: Bytes32) {
    forall i :: 0 <= i < |keys| ==> keys[i] in tokens && tokens[keys[i]].mint == mint
  }

  predicate AllPayeesSet(oracles: seq<ProposedOracle>) {
    forall i :: 0 <= i < |oracles| ==> oracles[i].payee != DEFAULT_KEY
  }

  function Accepted(oracles: seq<ProposedOracle>, fromRoundId: u32): (r: seq<Oracle>)
    ensures |r| == |oracles|
  {
    seq(|oracles|, i requires 0 <= i < |oracles| =>
      Oracle(oracles[i].transmitter, oracles[i].signer, oracles[i].payee, DEFAULT_KEY, fromRoundId, 0))
  }

  /** A digest with its first two bytes replaced by the Solana prefix. */
  function Prefixed(digest: Bytes32): Bytes32 {
    [0x00, 0x03] + digest[2..]
  }

  /** The second half of `accept_proposal`, after the old oracles are paid. */
  function Install(env: Env, c: Chain, p: Proposal, slot: nat): Result<Chain> {
    if c.config.configCount == U32_MAX || |p.oracles| > MAX_ORACLES then Err(Aborted) else
    var oracles := Accepted(p.oracles, c.config.latestRoundId);
    Ok(c.(config := InstalledConfig(env, c.config, p, slot, oracles), offchain := p.offchain, oracles := oracles))
  }

  /** The new configuration and its digest. */
  function InstalledConfig(env: Env, current: Config, p: Proposal, slot: nat, oracles: seq<Oracle>): Config
    requires current.configCount < U32_MAX && |oracles| <= MAX_ORACLES
  {
    var config := current.(f := p.f, configSlot := slot, configCount := current.configCount + 1);
    var preimage := ConfigPreimage(DataOf(env.programId, env.stateId, config, p.offchain, oracles));
    config.(configDigest := Prefixed(env.hash(preimage)))
  }

  // ----- Transmit

  const CONTEXT_LEN: nat := 96
  const SIGNATURE_LEN: nat := 65

  /** The fields of a transmission, after its one-byte store nonce. */
  datatype Transmission = Transmission(context: seq<byte>, report: seq<byte>, signatures: seq<byte>) {
    predicate Sized() {
      |context| == CONTEXT_LEN && |report| == Report.REPORT_LEN
    }

    function ConfigDigest(): seq<byte>
      requires Sized()
    {
      context[..32]
    }

    function Epoch(): u32
      requires Sized()
    {
      BigEndianBound(context[59..63]);
      PowValues();
      FromBE(context[59..63])
    }

    function Round(): byte
      requires Sized()
    {
      context[63]
    }

    /** What the oracles sign. */
    function Message(): seq<byte>
      requires Sized()
    {
      [|report|] + report + context
    }

    function SignatureCount(): nat {
      |signatures| / SIGNATURE_LEN
    }

    /** One signature and its recovery id. */
    function Signature(k: nat): (seq<byte>, byte)
      requires (k + 1) * SIGNATURE_LEN <= |signatures|
    {
      (signatures[k * SIGNATURE_LEN..k * SIGNATURE_LEN + 64], signatures[k * SIGNATURE_LEN + 64])
    }
  }

  function ParseTransmission(raw: seq<byte>): (r: Result<Transmission>)
    ensures r.Ok? ==> r.value.Sized()
  {
    if |raw| == 0 then Err(InvalidInput)
    else if |raw| - 1 <= CONTEXT_LEN + Report.REPORT_LEN then Err(InvalidInput)
    else Ok(Transmission(raw[1..97], raw[97..158], raw[158..]))
  }

  /** The position of a transmitter. */
  function FindTransmitter(oracles: seq<Oracle>, key: Bytes32): (r: Option<nat>)
    ensures r.Some? ==> r.value < |oracles| && oracles[r.value].transmitter == key
    ensures r.None? ==> forall i :: 0 <= i < |oracles| ==> oracles[i].transmitter != key
  {
    if oracles == [] then None
    else if oracles[0].transmitter == key then Some(0)
    else match FindTransmitter(oracles[1..], key)
      case None => None
      case Some(i) => assert oracles[1..][i] == oracles[i + 1]; Some(i + 1)
  }

  /** The position of a signer. */
  function FindSigner(oracles: seq<Oracle>, key: Address): (r: Option<nat>)
    ensures r.Some? ==> r.value < |oracles| && oracles[r.value].signer == key
    ensures r.None? ==> forall i :: 0 <= i < |oracles| ==> oracles[i].signer != key
  {
    if oracles == [] then None
    else if oracles[0].signer == key then Some(0)
    else match FindSigner(oracles[1..], key)
      case None => None
      case Some(i) => assert oracles[1..][i] == oracles[i + 1]; Some(i + 1)
  }

  /** The position of the first oracle paid at a token account. */
  function FindPayee(oracles: seq<Oracle>, key: Bytes32): (r: Option<nat>)
    ensures r.Some? ==> r.value < |oracles| && oracles[r.value].payee == key
    ensures r.None? ==> forall i :: 0 <= i < |oracles| ==> oracles[i].payee != key
  {
    if oracles == [] then None
    else if oracles[0].payee == key then Some(0)
    else match FindPayee(oracles[1..], key)
      case None => None
      case Some(i) => assert oracles[1..][i] == oracles[i + 1]; Some(i + 1)
  }

  /** The oracles that made the first `k` signatures. */
  function SignerIndices(env: Env, oracles: seq<Oracle>, t: Transmission, k: nat): (r: Result<seq<nat>>)
    requires t.Sized() && k <= t.SignatureCount()
    ensures r.Ok? ==> |r.value| == k && BitMask.AllBelow(r.value, |oracles|)
  {
    if k == 0 then Ok([]) else
    var front :- SignerIndices(env, oracles, t, k - 1);
    var (signature, recoveryId) := t.Signature(k - 1);
    var address :- env.recover(t.Message(), signature, recoveryId);
    match FindSigner(oracles, address)
    case None => Err(UnauthorizedSigner)
    case Some(index) => Ok(front + [index])
  }

  /** The checks on a transmission that do not depend on its report. */
  function VerifySignatures(env: Env, oracles: seq<Oracle>, f: byte, t: Transmission): (r: Result<seq<nat>>)
    requires t.Sized()
  {
    if |t.signatures| % SIGNATURE_LEN != 0 then Err(InvalidInput)
    else if t.SignatureCount() != f + 1 then Err(WrongNumberOfSignatures)
    else
      var indices :- SignerIndices(env, oracles, t, t.SignatureCount());
      if |oracles| > MAX_ORACLES then Err(Aborted)
      else if BitMask.CountOnes(BitMask.MaskOf(indices)) != t.SignatureCount() then Err(DuplicateSigner)
      else Ok(indices)
  }

  predicate Newer(config: Config, epoch: nat, round: nat) {
    config.epoch < epoch || (config.epoch == epoch && config.round < round)
  }

  function UnitPrice(sysvar: Option<ComputeBudget.Sysvar>): Result<Option<nat>> {
    match sysvar
    case None => Ok(None)
    case Some(s) => ComputeBudget.ComputeUnitPrice(s)
  }

  /** What one accepted transmission did. */
  datatype Acceptance = Acceptance(transmitter: nat, signers: seq<nat>, reimbursement: u64, report: Report.Unpacked)

  /** The checks of `transmit_impl`, in its order. */
  function CheckTransmit(env: Env, c: Chain, transmitter: Bytes32, t: Transmission,
                         sysvar: Option<ComputeBudget.Sysvar>)
    : (r: Result<Acceptance>)
    requires t.Sized()
    ensures r.Ok? ==> r.value.transmitter < |c.oracles| && c.config.latestRoundId < U32_MAX
  {
    if !Newer(c.config, t.Epoch(), t.Round()) then Err(StaleReport) else
    match FindTransmitter(c.oracles, transmitter)
    case None => Err(UnauthorizedTransmitter)
    case Some(index) =>
      if c.config.configDigest != t.ConfigDigest() then Err(DigestMismatch) else
      var signers :- VerifySignatures(env, c.oracles, c.config.f, t);
      var report :- Report.Unpack(t.report);
      if c.config.f >= report.observerCount then Err(InvalidInput)
      else if !(c.config.minAnswer <= report.median <= c.config.maxAnswer) then Err(MedianOutOfRange)
      else if c.config.latestRoundId == U32_MAX then Err(Overflow)
      else
        var price :- UnitPrice(sysvar);
        Ok(Acceptance(index, signers, ComputeBudget.Reimbursement(report.juelsPerLamport, t.SignatureCount(), price),
                      report))
  }

  /** The state changes of `transmit_impl`. */
  function ApplyTransmit(c: Chain, transmitter: Bytes32, t: Transmission, a: Acceptance): Chain
    requires t.Sized() && a.transmitter < |c.oracles| && c.config.latestRoundId < U32_MAX
  {
    var amount := SaturatingAdd64(a.reimbursement, c.config.billing.transmission);
    var oracle := c.oracles[a.transmitter];
    c.(config := c.config.(epoch := t.Epoch(), round := t.Round(), latestRoundId := c.config.latestRoundId + 1,
                           latestTransmitter := transmitter),
       oracles := c.oracles[a.transmitter := oracle.(payment := SaturatingAdd64(oracle.payment, amount))],
       answers := c.answers + [Answer(a.report.median, a.report.timestamp)])
  }

  // ----- Instructions

  function WithProposal(c: Chain, key: Bytes32, p: Proposal): Result<Effect> {
    Ok(Effect(c.(proposals := c.proposals[key := p]), []))
  }

  function WithConfig(c: Chain, config: Config): Result<Effect> {
    Ok(Effect(c.(config := config), []))
  }

  function WithOracle(c: Chain, index: nat, oracle: Oracle): Result<Effect>
    requires index < |c.oracles|
  {
    Ok(Effect(c.(oracles := c.oracles[index := oracle]), []))
  }

  function ExecOnProposal(c: Chain, key: Bytes32, authority: Bytes32, ix: ProposalIx): Result<Effect> {
    match ix
    case CreateProposal(version) =>
      if key in c.proposals then Err(InvalidInput)
      else if version == 0 then Err(InvalidInput)
      else WithProposal(c, key, Proposal(STATE_VERSION, authority, false, 0, DEFAULT_KEY, [],
                                         OffchainConfig(version, [])))
    case WriteOffchainConfig(data) =>
      var p :- Editable(c, key, authority);
      if |p.offchain.data| + |data| > MAX_OFFCHAIN_CONFIG then Err(InvalidInput)
      else WithProposal(c, key, p.(offchain := p.offchain.(data := p.offchain.data + data)))
    case FinalizeProposal =>
      var p :- Editable(c, key, authority);
      if p.offchain.version == 0 || p.offchain.data == [] || p.oracles == [] then Err(InvalidInput)
      else if !AllPayeesSet(p.oracles) then Err(InvalidInput)
      else WithProposal(c, key, p.(finalized := true))
    case CloseProposal =>
      var _ :- Owned(c, key, authority);
      Ok(Effect(c.(proposals := c.proposals - {key}), []))
    case ProposeConfig(newOracles, f) =>
      var p :- Owned(c, key, authority);
      var p' :- ProposeConfigImpl(p, newOracles, f);
      WithProposal(c, key, p')
    case ProposePayees(payees, mint) =>
      var p :- Editable(c, key, authority);
      if |p.oracles| != |payees| then Err(PayeeOracleMismatch)
      else if !AllOfMint(c.tokens, payees, mint) then Err(InvalidTokenAccount)
      else WithProposal(c, key, p.(oracles := WithPayees(p.oracles, payees), tokenMint := mint))
  }

  /** `accept_proposal`: pay the old oracles, then install the proposal and close it. */
  function ExecAccept(env: Env, c: Chain, key: Bytes32, authority: Bytes32, digest: seq<byte>,
                      payees: seq<Bytes32>, receiver: Bytes32, slot: nat): Result<Effect>
  {
    if key !in c.proposals then Err(InvalidInput)
    else if authority != c.config.owner then Err(Unauthorized)
    else if |digest| != 32 then Err(InvalidInput)
    else
      var paid :- PayOraclesImpl(c, payees, receiver);
      var p := c.proposals[key];
      if c.version != p.version then Err(InvalidInput)
      else if !p.finalized then Err(InvalidInput)
      else if env.hash(ProposalPreimage(p)) != digest then Err(DigestMismatch)
      else if p.tokenMint != c.config.tokenMint then Err(InvalidTokenAccount)
      else
        var installed :- Install(env, paid.chain, p, slot);
        Ok(Effect(installed.(proposals := c.proposals - {key}), paid.payments))
  }

  /** `close`: pay everyone, send the rest of the vault to the receiver, and close the account. A run ends there, so
      it is not a step of one. */
  function ExecClose(c: Chain, authority: Bytes32, payees: seq<Bytes32>, receiver: Bytes32): Result<Effect> {
    if authority != c.config.owner then Err(Unauthorized) else
    var paid :- PayOraclesImpl(c, payees, receiver);
    var vault := c.config.tokenVault;
    if vault !in paid.chain.tokens then Err(TokenFailure)
    else if paid.chain.tokens[vault].amount == 0 then Ok(paid)
    else
      var tokens :- TransferTokens(paid.chain.tokens, vault, receiver, paid.chain.tokens[vault].amount);
      Ok(paid.(chain := paid.chain.(tokens := tokens)))
  }

  function ExecWithdrawFunds(c: Chain, recipient: Bytes32, amount: nat): Result<Effect> {
    var due :- TotalDue(c.config, c.oracles);
    if c.config.tokenVault !in c.tokens then Err(TokenFailure) else
    var available := SaturatingSub(c.tokens[c.config.tokenVault].amount, due);
    var tokens :- TransferTokens(c.tokens, c.config.tokenVault, recipient, Min(amount, available));
    Ok(Effect(c.(tokens := tokens), []))
  }

  function ExecWithdrawPayment(c: Chain, authority: Bytes32, payee: Bytes32): Result<Effect> {
    if payee !in c.tokens || c.tokens[payee].mint != c.config.tokenMint then Err(InvalidInput) else
    match FindPayee(c.oracles, payee)
    case None => Err(Unauthorized)
    case Some(index) =>
      if c.tokens[payee].owner != authority then Err(Unauthorized) else
      var oracle := c.oracles[index];
      var amount :- Owed(c.config.billing, oracle, c.config.latestRoundId);
      var oracles := c.oracles[index := oracle.(payment := 0, fromRoundId := c.config.latestRoundId)];
      if amount == 0 then Ok(Effect(c.(oracles := oracles), []))
      else
        var tokens :- TransferTokens(c.tokens, c.config.tokenVault, payee, amount);
        Ok(Effect(c.(oracles := oracles, tokens := tokens), [Payment(index, payee, amount)]))
  }

  function ExecPayeeship(c: Chain, authority: Bytes32, transmitter: Bytes32, ix: PayeeshipIx): Result<Effect> {
    match ix
    case TransferPayeeship(payee, proposed) =>
      if payee !in c.tokens || proposed !in c.tokens then Err(InvalidTokenAccount)
      else if payee == proposed then Err(InvalidInput)
      else if c.tokens[proposed].mint != c.config.tokenMint then Err(InvalidInput)
      else (match FindTransmitter(c.oracles, transmitter)
        case None => Err(InvalidInput)
        case Some(index) =>
          if c.oracles[index].payee != payee then Err(InvalidInput)
          else if c.tokens[payee].owner != authority then Err(Unauthorized)
          else WithOracle(c, index, c.oracles[index].(proposedPayee := proposed)))
    case AcceptPayeeship(proposed) =>
      if proposed !in c.tokens then Err(InvalidTokenAccount)
      else match FindTransmitter(c.oracles, transmitter)
        case None => Err(InvalidInput)
        case Some(index) =>
          if c.oracles[index].proposedPayee != proposed then Err(InvalidInput)
          else if c.tokens[proposed].owner != authority then Err(Unauthorized)
          else WithOracle(c, index, c.oracles[index].(payee := proposed, proposedPayee := DEFAULT_KEY))
  }

  function ExecAdmin(c: Chain, authority: Bytes32, ix: AdminIx): Result<Effect> {
    var config := c.config;
    if authority != (if ix.AcceptOwnership? then config.proposedOwner else config.owner) then Err(Unauthorized)
    else match ix
      case TransferOwnership(proposed) => WithConfig(c, config.(proposedOwner := proposed))
      case AcceptOwnership => WithConfig(c, config.(owner := config.proposedOwner, proposedOwner := DEFAULT_KEY))
      case SetRequesterController(controller) => WithConfig(c, config.(requesterController := controller))
      case SetBillingController(controller) => WithConfig(c, config.(billingController := controller))
  }

  function ExecBilling(c: Chain, authority: Bytes32, controller: Bytes32, ix: BillingIx): Result<Effect> {
    var _ :- Access(c, c.config.billingController, controller, authority);
    match ix
    case SetBilling(billing, payees, receiver) =>
      var paid :- PayOraclesImpl(c, payees, receiver);
      Ok(paid.(chain := paid.chain.(config := paid.chain.config.(billing := billing))))
    case PayOracles(payees, receiver) => PayOraclesImpl(c, payees, receiver)
    case WithdrawFunds(recipient, amount) => ExecWithdrawFunds(c, recipient, amount)
  }

  function ExecTransmit(env: Env, c: Chain, transmitter: Bytes32, raw: seq<byte>,
                        sysvar: Option<ComputeBudget.Sysvar>, storeAccepts: bool): Result<Effect>
  {
    var t :- ParseTransmission(raw);
    var a :- CheckTransmit(env, c, transmitter, t, sysvar);
    if !storeAccepts then Err(StoreFailure) else
    Ok(Effect(ApplyTransmit(c, transmitter, t, a), []))
  }

  /** Others may do anything with token accounts except take from the vault. */
  predicate AllowedTokens(c: Chain, tokens: map<Bytes32, TokenAccount>) {
    var vault := c.config.tokenVault;
    vault in c.tokens ==>
      && vault in tokens
      && tokens[vault].mint == c.tokens[vault].mint && tokens[vault].amount >= c.tokens[vault].amount
  }

  function ExecOutside(c: Chain, ix: OutsideIx): Result<Effect> {
    match ix
    case TokenActivity(tokens) =>
      if AllowedTokens(c, tokens) then Ok(Effect(c.(tokens := tokens), [])) else Err(TokenFailure)
    case AccessActivity(controllers) => Ok(Effect(c.(controllers := controllers), []))
  }

  /** One instruction. */
  function Exec(env: Env, c: Chain, ix: Ix): Result<Effect> {
    match ix
    case OnProposal(key, authority, action) => ExecOnProposal(c, key, authority, action)
    case AcceptProposal(key, authority, digest, payees, receiver, slot) =>
      ExecAccept(env, c, key, authority, digest, payees, receiver, slot)
    case Admin(authority, action) => ExecAdmin(c, authority, action)
    case Transmit(transmitter, raw, sysvar, storeAccepts) =>
      ExecTransmit(env, c, transmitter, raw, sysvar, storeAccepts)
    case Bill(authority, controller, action) => ExecBilling(c, authority, controller, action)
    case WithdrawPayment(authority, payee) => ExecWithdrawPayment(c, authority, payee)
    case Payeeship(authority, transmitter, action) => ExecPayeeship(c, authority, transmitter, action)
    case RequestNewRound(authority, controller) =>
      var _ :- Access(c, c.config.requesterController, controller, authority);
      Ok(Effect(c, []))
    case Outside(action) => ExecOutside(c, action)
  }

  /** A failed instruction changes nothing. */
  function Step(env: Env, c: Chain, ix: Ix): Chain {
    match Exec(env, c, ix)
    case Ok(effect) => effect.chain
    case Err(_) => c
  }

  function Run(env: Env, c: Chain, ixs: seq<Ix>): Chain {
    if ixs == [] then c else Step(env, Run(env, c, ixs[..|ixs| - 1]), ixs[|ixs| - 1])
  }

  /** A freshly initialized aggregator. */
  predicate Initial(c: Chain) {
    && c.version == STATE_VERSION
    && c.oracles == [] && c.proposals == map[] && c.answers == []
    && c.config.f == 0 && c.config.round == 0 && c.config.epoch == 0 && c.config.latestRoundId == 0
    && c.config.configCount == 0 && c.config.billing == Billing(0, 0)
    && c.offchain == OffchainConfig(0, [])
  }
}

/** Who can do what, and what the digest on chain stands for. */
module Ocr2Authority {
  import opened Bytes
  import opened Ocr2Types
  import opened Encodings
  import opened Ocr2
  import opened Ocr2Invariants

  // ----- The config digest

  /** What the current configuration commits to. */
  function Committed(env: Env, c: Chain): ConfigData {
    DataOf(env.programId, env.stateId, c.config, c.offchain, c.oracles)
  }

  /** A config digest: two fixed bytes, and then all of the hash of the committed data but its first two. */
  ghost predicate DigestOf(env: Env, digest: seq<byte>, data: ConfigData) {
    && ConfigSized(data) && |digest| == 32
    && digest[0] == 0x00 && digest[1] == 0x03
    && digest[2..] == env.hash(ConfigPreimage(data))[2..]
  }

  /** Oracles exist only in an accepted configuration, whose digest is the one stored. */
  ghost predicate DigestCurrent(env: Env, c: Chain) {
    && (c.oracles != [] ==> c.config.configCount > 0)
    && |c.oracles| <= MAX_ORACLES
    && (c.config.configCount > 0 ==> DigestOf(env, c.config.configDigest, Committed(env, c)))
  }

  /** Nothing the digest covers has changed, and neither has the digest. */
  ghost predicate SameCommitment(c: Chain, c': Chain) {
    && SameKeys(c.oracles, c'.oracles) && c'.offchain == c.offchain
    && c'.config.configCount == c.config.configCount && c'.config.f == c.config.f
    && c'.config.configDigest == c.config.configDigest && SameBounds(c, c')
  }

  lemma SameCommitmentCurrent(env: Env, c: Chain, c': Chain)
    requires DigestCurrent(env, c) && SameCommitment(c, c')
    ensures DigestCurrent(env, c')
  {
    SameKeysSame(c.oracles, c'.oracles);
    assert Committed(env, c) == Committed(env, c');
  }

  lemma AcceptCommits(env: Env, c: Chain, ix: Ix)
    requires ix.AcceptProposal? && Exec(env, c, ix).Ok?
    ensures DigestCurrent(env, Step(env, c, ix))
    ensures Step(env, c, ix).config.configCount == c.config.configCount + 1
  {
    PayFrame(c, ix.payees, ix.receiver);
    var (c', p) := (Step(env, c, ix), c.proposals[ix.proposal]);
    var paid := PayOraclesImpl(c, ix.payees, ix.receiver).value.chain;
    InstallCommits(env, paid, p, ix.slot);
    var installed := Install(env, paid, p, ix.slot).value;
    assert c' == installed.(proposals := c.proposals - {ix.proposal});
    assert Committed(env, c') == Committed(env, installed);
  }

  lemma InstallCommits(env: Env, c: Chain, p: Proposal, slot: nat)
    requires Install(env, c, p, slot).Ok?
    ensures DigestCurrent(env, Install(env, c, p, slot).value)
    ensures Install(env, c, p, slot).value.config.configCount == c.config.configCount + 1
  {
    var c' := Install(env, c, p, slot).value;
    var oracles := Accepted(p.oracles, c.config.latestRoundId);
    var bare := c.config.(f := p.f, configSlot := slot, configCount := c.config.configCount + 1);
    assert Committed(env, c') == DataOf(env.programId, env.stateId, bare, p.offchain, oracles);
  }

  lemma BillingSameCommitment(c: Chain, authority: Bytes32, controller: Bytes32, ix: BillingIx)
    requires ExecBilling(c, authority, controller, ix).Ok?
    ensures SameCommitment(c, ExecBilling(c, authority, controller, ix).value.chain)
  {
    match ix
    case SetBilling(_, payees, receiver) => PayFrame(c, payees, receiver);
    case PayOracles(payees, receiver) => PayFrame(c, payees, receiver);
    case WithdrawFunds(_, _) =>
  }

  lemma TransmitSameCommitment(env: Env, c: Chain, ix: Ix)
    requires ix.Transmit? && Exec(env, c, ix).Ok?
    ensures SameCommitment(c, Exec(env, c, ix).value.chain)
  {}

  lemma WithdrawSameCommitment(c: Chain, authority: Bytes32, payee: Bytes32)
    requires ExecWithdrawPayment(c, authority, payee).Ok?
    ensures SameCommitment(c, ExecWithdrawPayment(c, authority, payee).value.chain)
  {}

  lemma PayeeshipSameCommitment(c: Chain, authority: Bytes32, transmitter: Bytes32, ix: PayeeshipIx)
    requires ExecPayeeship(c, authority, transmitter, ix).Ok?
    ensures SameCommitment(c, ExecPayeeship(c, authority, transmitter, ix).value.chain)
  {}

  lemma OthersSameCommitment(env: Env, c: Chain, ix: Ix)
    requires !ix.AcceptProposal? && Exec(env, c, ix).Ok?
    ensures SameCommitment(c, Exec(env, c, ix).value.chain)
  {
    match ix
    case OnProposal(key, authority, action) => ProposalFrame(c, key, authority, action);
    case Bill(authority, controller, action) => BillingSameCommitment(c, authority, controller, action);
    case Transmit(_, _, _, _) => TransmitSameCommitment(env, c, ix);
    case WithdrawPayment(authority, payee) => WithdrawSameCommitment(c, authority, payee);
    case Payeeship(authority, transmitter, action) => PayeeshipSameCommitment(c, authority, transmitter, action);
    case _ =>
  }

  /** In every reachable state, the digest stored is the one the node recomputes from the account. */
  lemma {:induction false} DigestAlwaysCurrent(env: Env, c: Chain, ixs: seq<Ix>)
    requires Initial(c)
    ensures DigestCurrent(env, Run(env, c, ixs))
  {
    if ixs != [] {
      DigestAlwaysCurrent(env, c, ixs[..|ixs| - 1]);
      var (before, ix) := (Run(env, c, ixs[..|ixs| - 1]), ixs[|ixs| - 1]);
      if Exec(env, before, ix).Ok? {
        if ix.AcceptProposal? {
          AcceptCommits(env, before, ix);
        } else {
          OthersSameCommitment(env, before, ix);
          SameCommitmentCurrent(env, before, Step(env, before, ix));
        }
      }
    }
  }

  lemma TransmitChecksDigest(env: Env, c: Chain, ix: Ix)
    requires ix.Transmit? && Exec(env, c, ix).Ok?
    ensures c.oracles != [] && |ix.raw| >= 158 && ix.raw[1..33] == c.config.configDigest
  {
    assert ix.raw[1..97][..32] == ix.raw[1..33];
  }

  /** An accepted report was made for the configuration it is accepted under: unless the hash
      collides, any configuration with the digest it carries is the current one. */
  lemma ReportNamesConfig(env: Env, c: Chain, ixs: seq<Ix>, ix: Ix, data: ConfigData)
    requires Initial(c) && ix.Transmit? && Exec(env, Run(env, c, ixs), ix).Ok?
    requires |ix.raw| >= 33 && DigestOf(env, ix.raw[1..33], data)
    requires ConfigSized(Committed(env, Run(env, c, ixs))) ==>
               NoSuffixCollision(env, ConfigPreimage(data), ConfigPreimage(Committed(env, Run(env, c, ixs))))
    ensures data == Committed(env, Run(env, c, ixs))
  {
    var now := Run(env, c, ixs);
    TransmitChecksDigest(env, now, ix);
    DigestAlwaysCurrent(env, c, ixs);
    ConfigPreimageInjective(data, Committed(env, now));
  }

  /** No two inputs whose hashes agree beyond their first two bytes. */
  ghost predicate NoSuffixCollision(env: Env, a: seq<byte>, b: seq<byte>) {
    env.hash(a)[2..] == env.hash(b)[2..] ==> a == b
  }

  const CONFIG_DIGEST_PREFIX_SOLANA: nat := 3

  /** The account as the node decodes it. */
  ghost predicate Decodes(state: AccountState, c: Chain) {
    && state.WellShaped()
    && state.oraclesLen <= MAX_ORACLES && state.offchainLen <= MAX_OFFCHAIN_CONFIG
    && state.config == c.config && state.oracles[..state.oraclesLen] == c.oracles
    && OffchainConfig(state.offchainVersion, state.offchainRaw[..state.offchainLen]) == c.offchain
  }

  /** `OffchainConfigDigester.ConfigDigest`, with its prefix. From any account with an accepted configuration,
      the node gets the digest stored there. */
  method NodeDigest(env: Env, state: AccountState, ghost c: Chain) returns (digest: seq<byte>)
    requires Decodes(state, c) && DigestCurrent(env, c)
    ensures DigestOf(env, digest, Committed(env, c))
    ensures c.config.configCount > 0 ==> digest == c.config.configDigest
  {
    var written := NodeMatchesProgram(env.programId, env.stateId, state);
    assert written.value == ConfigPreimage(Committed(env, c));
    digest := env.hash(written.value);
    digest := digest[0 := CONFIG_DIGEST_PREFIX_SOLANA / 256][1 := CONFIG_DIGEST_PREFIX_SOLANA % 256];
    if c.config.configCount > 0 {
      SameDigest(env, digest, c.config.configDigest, Committed(env, c));
    }
  }

  lemma SameDigest(env: Env, a: seq<byte>, b: seq<byte>, data: ConfigData)
    requires DigestOf(env, a, data) && DigestOf(env, b, data)
    ensures a == b
  {
    assert a == [a[0], a[1]] + a[2..] && b == [b[0], b[1]] + b[2..];
  }

  // ----- Signatures

  predicate Granted(c: Chain, authority: Bytes32, controller: Bytes32, expected: Bytes32) {
    && controller == expected
    && (authority == c.config.owner || (controller in c.controllers && authority in c.controllers[controller]))
  }

  predicate OwnsTokens(c: Chain, authority: Bytes32, account: Bytes32) {
    account in c.tokens && c.tokens[account].owner == authority
  }

  /** Who may sign what. */
  ghost predicate Authorized(c: Chain, ix: Ix) {
    match ix
    case OnProposal(key, authority, action) =>
      if action.CreateProposal? then key !in c.proposals else key in c.proposals && c.proposals[key].owner == authority
    case AcceptProposal(_, authority, _, _, _, _) => authority == c.config.owner
    case Admin(authority, action) =>
      authority == if action.AcceptOwnership? then c.config.proposedOwner else c.config.owner
    case Transmit(transmitter, _, _, _) => transmitter in Transmitters(c.oracles)
    case Bill(authority, controller, _) => Granted(c, authority, controller, c.config.billingController)
    case WithdrawPayment(authority, payee) =>
      OwnsTokens(c, authority, payee) && exists i :: 0 <= i < |c.oracles| && c.oracles[i].payee == payee
    case Payeeship(authority, _, TransferPayeeship(payee, _)) => OwnsTokens(c, authority, payee)
    case Payeeship(authority, _, AcceptPayeeship(proposed)) => OwnsTokens(c, authority, proposed)
    case RequestNewRound(authority, controller) => Granted(c, authority, controller, c.config.requesterController)
    case Outside(_) => true
  }

  lemma OnlyAuthorized(env: Env, c: Chain, ix: Ix)
    requires Exec(env, c, ix).Ok?
    ensures Authorized(c, ix)
  {
    match ix
    case Transmit(transmitter, _, _, _) =>
      var index := FindTransmitter(c.oracles, transmitter).value;
      assert Transmitters(c.oracles)[index] == transmitter;
    case WithdrawPayment(_, payee) =>
      assert FindPayee(c.oracles, payee).Some?;
    case _ =>
  }

  /** The owner of oracle `i`'s payee account offers its payments to another account of the mint. */
  predicate OffersPayee(c: Chain, ix: Ix, i: nat)
    requires i < |c.oracles|
  {
    && ix.Payeeship? && ix.payeeshipIx.TransferPayeeship? && ix.transmitter == c.oracles[i].transmitter
    && ix.payeeshipIx.payee == c.oracles[i].payee && OwnsTokens(c, ix.authority, c.oracles[i].payee)
    && ix.payeeshipIx.proposedPayee in c.tokens
    && c.tokens[ix.payeeshipIx.proposedPayee].mint == c.config.tokenMint
    && ix.payeeshipIx.proposedPayee != c.oracles[i].payee
  }

  /** The owner of the account offered accepts. */
  predicate AcceptsPayee(c: Chain, ix: Ix, i: nat)
    requires i < |c.oracles|
  {
    && ix.Payeeship? && ix.payeeshipIx.AcceptPayeeship? && ix.transmitter == c.oracles[i].transmitter
    && ix.payeeshipIx.proposedPayee == c.oracles[i].proposedPayee
    && OwnsTokens(c, ix.authority, c.oracles[i].proposedPayee)
  }

  /** Within a configuration, an oracle's payee changes exactly by a handover in two steps: the owner of the old
      account offers, and the owner of the new one accepts. */
  lemma PayeeHandover(env: Env, c: Chain, ix: Ix, i: nat)
    requires !ix.AcceptProposal? && i < |c.oracles| && Distinct(Transmitters(c.oracles))
    ensures var (c', was) := (Step(env, c, ix), c.oracles[i]);
            && |c'.oracles| == |c.oracles|
            && c'.oracles[i].payee == (if AcceptsPayee(c, ix, i) then was.proposedPayee else was.payee)
            && c'.oracles[i].proposedPayee
               == if AcceptsPayee(c, ix, i) then Repeat(0, 32)
                  else if OffersPayee(c, ix, i) then ix.payeeshipIx.proposedPayee else was.proposedPayee
  {
    assert Transmitters(c.oracles)[i] == c.oracles[i].transmitter;
    match ix
    case Payeeship(authority, transmitter, action) => PayeeshipHandover(c, authority, transmitter, action, i);
    case OnProposal(key, authority, action) =>
      if Exec(env, c, ix).Ok? {
        ProposalFrame(c, key, authority, action);
      }
    case Bill(authority, controller, action) =>
      if Exec(env, c, ix).Ok? {
        BillingKeepsPayees(c, authority, controller, action);
      }
    case _ =>
  }

  lemma PayeeshipHandover(c: Chain, authority: Bytes32, transmitter: Bytes32, action: PayeeshipIx, i: nat)
    requires i < |c.oracles| && Distinct(Transmitters(c.oracles))
    ensures var (r, ix, was) := (ExecPayeeship(c, authority, transmitter, action),
                                 Payeeship(authority, transmitter, action), c.oracles[i]);
            && (r.Ok? && |r.value.chain.oracles| == |c.oracles| && r.value.chain.oracles[i] != was ==>
                AcceptsPayee(c, ix, i) || OffersPayee(c, ix, i))
            && (AcceptsPayee(c, ix, i) ==>
                r.Ok? && r.value.chain.oracles
                         == c.oracles[i := was.(payee := was.proposedPayee, proposedPayee := Repeat(0, 32))])
            && (OffersPayee(c, ix, i) ==>
                r.Ok? && r.value.chain.oracles
                         == c.oracles[i := was.(proposedPayee := action.proposedPayee)])
            && (r.Ok? ==> |r.value.chain.oracles| == |c.oracles|)
  {
    match FindTransmitter(c.oracles, transmitter)
    case None =>
    case Some(index) =>
      assert Transmitters(c.oracles)[index] == transmitter && Transmitters(c.oracles)[i] == c.oracles[i].transmitter;
  }

  /** Over every instruction: the owner changes exactly when the proposed one accepts, and everything else the owner
      sets changes exactly when the owner says so. The mint, the vault and the answer bounds never change. */
  lemma OwnerHandover(env: Env, c: Chain, ix: Ix)
    ensures var (was, now) := (c.config, Step(env, c, ix).config);
            var accepts := ix.Admin? && ix.adminIx.AcceptOwnership? && ix.authority == was.proposedOwner;
            var owner := ix.Admin? && ix.authority == was.owner;
            && now.owner == (if accepts then ix.authority else was.owner)
            && now.proposedOwner == (if accepts then Repeat(0, 32)
                                     else if owner && ix.adminIx.TransferOwnership? then ix.adminIx.proposedOwner
                                     else was.proposedOwner)
            && now.requesterController == (if owner && ix.adminIx.SetRequesterController? then ix.adminIx.controller
                                           else was.requesterController)
            && now.billingController == (if owner && ix.adminIx.SetBillingController? then ix.adminIx.controller
                                         else was.billingController)
            && now.tokenMint == was.tokenMint && now.tokenVault == was.tokenVault
            && SameBounds(c, Step(env, c, ix))
  {
    if Exec(env, c, ix).Ok? && !ix.Admin? {
      if ix.AcceptProposal? {
        AcceptKeepsOwner(env, c, ix);
      } else {
        OthersKeepOwner(env, c, ix);
      }
    }
  }

  /** What only the owner sets, or nobody. */
  ghost predicate SameOwner(was: Config, now: Config) {
    && now.owner == was.owner && now.proposedOwner == was.proposedOwner
    && now.requesterController == was.requesterController && now.billingController == was.billingController
    && now.tokenMint == was.tokenMint && now.tokenVault == was.tokenVault
    && now.minAnswer == was.minAnswer && now.maxAnswer == was.maxAnswer
  }

  lemma AcceptKeepsOwner(env: Env, c: Chain, ix: Ix)
    requires ix.AcceptProposal? && Exec(env, c, ix).Ok?
    ensures SameOwner(c.config, Exec(env, c, ix).value.chain.config)
  {
    PayFrame(c, ix.payees, ix.receiver);
  }

  lemma OthersKeepOwner(env: Env, c: Chain, ix: Ix)
    requires !ix.Admin? && !ix.AcceptProposal? && Exec(env, c, ix).Ok?
    ensures SameOwner(c.config, Exec(env, c, ix).value.chain.config)
  {
    match ix
    case OnProposal(key, authority, action) => ProposalFrame(c, key, authority, action);
    case Bill(_, _, SetBilling(_, payees, receiver)) => PayFrame(c, payees, receiver);
    case Bill(_, _, PayOracles(payees, receiver)) => PayFrame(c, payees, receiver);
    case _ =>
  }

  lemma BillingKeepsPayees(c: Chain, authority: Bytes32, controller: Bytes32, ix: BillingIx)
    requires ExecBilling(c, authority, controller, ix).Ok?
    ensures var c' := ExecBilling(c, authority, controller, ix).value.chain;
            |c'.oracles| == |c.oracles| &&
            forall i :: 0 <= i < |c.oracles| ==>
              c'.oracles[i].payee == c.oracles[i].payee && c'.oracles[i].proposedPayee == c.oracles[i].proposedPayee
  {
    match ix
    case SetBilling(_, payees, receiver) => PayFrame(c, payees, receiver);
    case PayOracles(payees, receiver) => PayFrame(c, payees, receiver);
    case WithdrawFunds(_, _) =>
  }
}

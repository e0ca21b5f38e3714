/** The aggregator program as it runs: accounts updated in place by handlers with
    loops. Each handler does what its instruction is specified to do; a failing one
    leaves the accounts as they were, as the runtime's rollback does. */
module Ocr2Program {
  import opened Bytes
  import opened Collections
  import opened Ocr2Types
  import opened Encodings
  import opened Ocr2
  import opened Ocr2Invariants
  import BitMask
  import ComputeBudget
  import Report
  import StoreFeed

  /** What a handler did, against the effect its instruction is specified to have. */
  ghost predicate Does(spec: Result<Effect>, before: Chain, after: Chain, r: Result<seq<Payment>>) {
    match spec
    case Ok(effect) => after == effect.chain && r == Ok(effect.payments)
    case Err(error) => after == before && r == Err(error)
  }

  // ----- A loop that stops at the first failure computes the recursive specification

  lemma {:induction false} SettleStops(config: Config, oracles: seq<Oracle>, payees: seq<Bytes32>,
                                       tokens: map<Bytes32, TokenAccount>, receiver: Bytes32, k: nat)
    requires |oracles| == |payees| && k <= |oracles|
    requires Settle(config, oracles[..k], payees[..k], tokens, receiver).Err?
    ensures Settle(config, oracles, payees, tokens, receiver)
            == Settle(config, oracles[..k], payees[..k], tokens, receiver)
  {
    var n := |oracles| - 1;
    if k <= n {
      assert oracles[..n][..k] == oracles[..k] && payees[..n][..k] == payees[..k];
      SettleStops(config, oracles[..n], payees[..n], tokens, receiver, k);
    } else {
      assert oracles[..k] == oracles && payees[..k] == payees;
    }
  }

  lemma {:induction false} PayAllStops(tokens: map<Bytes32, TokenAccount>, vault: Bytes32, payments: seq<Payment>,
                                       k: nat)
    requires k <= |payments| && PayAll(tokens, vault, payments[..k]).Err?
    ensures PayAll(tokens, vault, payments) == PayAll(tokens, vault, payments[..k])
  {
    var n := |payments| - 1;
    if k <= n {
      assert payments[..n][..k] == payments[..k];
      PayAllStops(tokens, vault, payments[..n], k);
    } else {
      assert payments[..k] == payments;
    }
  }

  lemma {:induction false} SignersStop(env: Env, oracles: seq<Oracle>, t: Transmission, k: nat, n: nat)
    requires t.Sized() && k <= n <= t.SignatureCount() && SignerIndices(env, oracles, t, k).Err?
    ensures SignerIndices(env, oracles, t, n) == Err(SignerIndices(env, oracles, t, k).error)
  {
    if k < n {
      SignersStop(env, oracles, t, k, n - 1);
    }
  }

  lemma {:induction false} TotalsStop(latest: nat, oracles: seq<Oracle>, k: nat)
    requires k <= |oracles| && UnpaidTotals(latest, oracles[..k]).Err?
    ensures UnpaidTotals(latest, oracles) == UnpaidTotals(latest, oracles[..k])
  {
    var n := |oracles| - 1;
    if k <= n {
      assert oracles[..n][..k] == oracles[..k];
      TotalsStop(latest, oracles[..n], k);
    } else {
      assert oracles[..k] == oracles;
    }
  }

  /** On strictly sorted signers, the binary search finds the one position there is. */
  lemma SearchFindsSigner(oracles: seq<Oracle>, address: Address, search: Search)
    requires StrictlySorted(Signers(oracles))
    requires search.Present? <==> address in Signers(oracles)
    requires search.Present? ==> search.index < |oracles| && Signers(oracles)[search.index] == address
    ensures FindSigner(oracles, address) == if search.Present? then Some(search.index) else None
  {
    var found := FindSigner(oracles, address);
    if found.Some? {
      assert Signers(oracles)[found.value] == address;
      if search.Present? {
        StrictlySortedDistinct(Signers(oracles), found.value, search.index);
      }
    }
  }

  // ----- The feed behind the aggregator

  /** The feed's rounds are the aggregator's answers: round `i` of one is round `i` of the other. */
  ghost predicate Mirrors(log: seq<StoreFeed.Transmission>, answers: seq<Answer>) {
    && |log| == |answers| + 1
    && forall i :: 0 <= i < |answers| ==>
           log[i + 1].answer == answers[i].median && log[i + 1].timestamp == answers[i].timestamp
  }

  /** One more round on the feed, for an answer. */
  ghost predicate Appended(before: seq<StoreFeed.Transmission>, after: seq<StoreFeed.Transmission>, slot: nat,
                           answer: Answer) {
    && |after| == |before| + 1 && after[..|before|] == before
    && after[|before|].slot == slot && after[|before|].timestamp == answer.timestamp
         && after[|before|].answer == answer.median
  }

  lemma AppendedMirrors(before: seq<StoreFeed.Transmission>, after: seq<StoreFeed.Transmission>, slot: nat,
                        answers: seq<Answer>, answer: Answer)
    requires Mirrors(before, answers) && Appended(before, after, slot, answer)
    ensures Mirrors(after, answers + [answer])
  {
    forall i | 0 <= i < |answers|
      ensures after[i + 1].answer == answers[i].median && after[i + 1].timestamp == answers[i].timestamp
    {
      assert after[..|before|][i + 1] == after[i + 1];
    }
  }

  /** What a report that passed the checks says. */
  lemma AcceptedReport(env: Env, c: Chain, transmitter: Bytes32, t: Transmission, sysvar: Option<ComputeBudget.Sysvar>)
    requires t.Sized() && CheckTransmit(env, c, transmitter, t, sysvar).Ok?
    ensures var report := CheckTransmit(env, c, transmitter, t, sysvar).value.report;
            c.config.minAnswer <= report.median <= c.config.maxAnswer && report.timestamp <= U32_MAX
  {
    BigEndianBound(t.report[0..4]);
    PowValues();
  }

  /** What readers get from a mirrored feed, by the aggregator's own round number `r`: its answer while
      the round is live, and after that the answer at the last multiple of the granularity. */
  lemma MirroredReads(log: seq<StoreFeed.Transmission>, answers: seq<Answer>, live: nat, historical: nat, g: nat,
                      r: nat)
    requires Mirrors(log, answers) && log[0] == StoreFeed.ZERO && live > 0 && g > 0
    requires 0 < r <= |answers| && StoreFeed.FetchSpec(log, live, historical, g, r).Found?
    ensures var round := StoreFeed.FetchSpec(log, live, historical, g, r).round;
            if |answers| < r + live then round.answer == answers[r - 1].median
            else var d := StoreFeed.RoundDown(r, g);
                 d < r + 1 && round.answer == if d == 0 then 0 else answers[d - 1].median
    ensures StoreFeed.LatestSpec(log, live).Found? ==>
              StoreFeed.LatestSpec(log, live).round.answer == answers[|answers| - 1].median
  {}

  // ----- The program

  class Program {
    const env: Env
    var version: byte
    var config: Config
    var offchain: OffchainConfig
    var oracles: seq<Oracle>
    var proposals: map<Bytes32, Proposal>
    var tokens: map<Bytes32, TokenAccount>
    var controllers: map<Bytes32, set<Bytes32>>
    var answers: seq<Answer>

    function Value(): Chain
      reads this
    {
      Chain(version, config, offchain, oracles, proposals, tokens, controllers, answers)
    }

    constructor (env: Env, c: Chain)
      ensures Value() == c && this.env == env
    {
      this.env := env;
      version, config, offchain, oracles := c.version, c.config, c.offchain, c.oracles;
      proposals, tokens, controllers, answers := c.proposals, c.tokens, c.controllers, c.answers;
    }

    /** The first half of `pay_oracles_impl`: work out each payment and reset the oracle's account. */
    method SettleAll(payees: seq<Bytes32>, receiver: Bytes32) returns (r: Result<seq<Payment>>, settled: seq<Oracle>)
      requires |payees| == |oracles|
      ensures r == Settle(config, oracles, payees, tokens, receiver)
      ensures r.Ok? ==> settled == Settled(oracles, config.latestRoundId)
    {
      var payments := [];
      settled := oracles;
      for i := 0 to |oracles|
        invariant Settle(config, oracles[..i], payees[..i], tokens, receiver) == Ok(payments)
        invariant |settled| == |oracles|
        invariant forall j :: 0 <= j < |oracles| ==>
                    settled[j]
                    == if j < i then oracles[j].(payment := 0, fromRoundId := config.latestRoundId) else oracles[j]
      {
        assert oracles[..i + 1][..i] == oracles[..i] && payees[..i + 1][..i] == payees[..i];
        if oracles[i].payee != payees[i] {
          SettleStops(config, oracles, payees, tokens, receiver, i + 1);
          return Err(InvalidInput), settled;
        }
        var amount := Owed(config.billing, oracles[i], config.latestRoundId);
        if amount.Err? {
          SettleStops(config, oracles, payees, tokens, receiver, i + 1);
          return Err(amount.error), settled;
        }
        settled := settled[i := settled[i].(payment := 0, fromRoundId := config.latestRoundId)];
        var usable := payees[i] in tokens && tokens[payees[i]].mint == config.tokenMint;
        payments := payments + [Payment(i, if usable then payees[i] else receiver, amount.value)];
      }
      assert oracles[..|oracles|] == oracles && payees[..|oracles|] == payees;
      assert settled == Settled(oracles, config.latestRoundId);
      return Ok(payments), settled;
    }

    /** The second half: the transfers, in order. */
    method TransferAll(payments: seq<Payment>) returns (r: Result<map<Bytes32, TokenAccount>>)
      ensures r == PayAll(tokens, config.tokenVault, payments)
    {
      var balances := tokens;
      for i := 0 to |payments|
        invariant PayAll(tokens, config.tokenVault, payments[..i]) == Ok(balances)
      {
        assert payments[..i + 1][..i] == payments[..i];
        if payments[i].amount != 0 {
          var transfer := TransferTokens(balances, config.tokenVault, payments[i].to, payments[i].amount);
          if transfer.Err? {
            PayAllStops(tokens, config.tokenVault, payments, i + 1);
            return transfer;
          }
          balances := transfer.value;
        }
      }
      assert payments[..|payments|] == payments;
      return Ok(balances);
    }

    method PayOracles(payees: seq<Bytes32>, receiver: Bytes32) returns (r: Result<seq<Payment>>)
      modifies this`oracles, this`tokens
      ensures Does(PayOraclesImpl(old(Value()), payees, receiver), old(Value()), Value(), r)
    {
      if !(receiver in tokens && tokens[receiver].mint == config.tokenMint && config.tokenVault in tokens) {
        return Err(InvalidTokenAccount);
      }
      if |payees| != |oracles| {
        return Err(InvalidInput);
      }
      var payments, settled := SettleAll(payees, receiver);
      if payments.Err? {
        return payments;
      }
      var balances := TransferAll(payments.value);
      if balances.Err? {
        return Err(balances.error);
      }
      oracles, tokens := settled, balances.value;
      return payments;
    }

    method SetBilling(authority: Bytes32, controller: Bytes32, billing: Billing, payees: seq<Bytes32>,
                      receiver: Bytes32)
      returns (r: Result<seq<Payment>>)
      modifies this`oracles, this`tokens, this`config
      ensures Does(ExecBilling(old(Value()), authority, controller, BillingIx.SetBilling(billing, payees, receiver)),
                   old(Value()), Value(), r)
    {
      var access := Access(Value(), config.billingController, controller, authority);
      if access.Err? {
        return Err(access.error);
      }
      r := PayOracles(payees, receiver);
      if r.Ok? {
        config := config.(billing := billing);
      }
    }

    /** `calculate_total_link_due_gjuels`. */
    method CalculateTotalDue() returns (r: Result<nat>)
      ensures r == TotalDue(config, oracles)
    {
      var rounds, reimbursements := 0, 0;
      for i := 0 to |oracles|
        invariant UnpaidTotals(config.latestRoundId, oracles[..i]) == Ok((rounds, reimbursements))
      {
        assert oracles[..i + 1][..i] == oracles[..i];
        if config.latestRoundId < oracles[i].fromRoundId {
          TotalsStop(config.latestRoundId, oracles, i + 1);
          return Err(Overflow);
        }
        var count := config.latestRoundId - oracles[i].fromRoundId;
        if rounds + count > U32_MAX || reimbursements + oracles[i].payment > U64_MAX {
          TotalsStop(config.latestRoundId, oracles, i + 1);
          return Err(Overflow);
        }
        rounds, reimbursements := rounds + count, reimbursements + oracles[i].payment;
      }
      assert oracles[..|oracles|] == oracles;
      var observations := config.billing.observation * rounds;
      if observations > U64_MAX || observations + reimbursements > U64_MAX {
        return Err(Overflow);
      }
      return Ok(observations + reimbursements);
    }

    method WithdrawFunds(authority: Bytes32, controller: Bytes32, recipient: Bytes32, amount: u64)
      returns (r: Result<seq<Payment>>)
      modifies this`tokens
      ensures Does(ExecBilling(old(Value()), authority, controller, BillingIx.WithdrawFunds(recipient, amount)),
                   old(Value()), Value(), r)
    {
      var access := Access(Value(), config.billingController, controller, authority);
      if access.Err? {
        return Err(access.error);
      }
      var due := CalculateTotalDue();
      if due.Err? {
        return Err(due.error);
      }
      if config.tokenVault !in tokens {
        return Err(TokenFailure);
      }
      var available := SaturatingSub(tokens[config.tokenVault].amount, due.value);
      var transfer := TransferTokens(tokens, config.tokenVault, recipient, Min(amount, available));
      if transfer.Err? {
        return Err(transfer.error);
      }
      tokens := transfer.value;
      return Ok([]);
    }

    /** The signature loop of `transmit_impl`: recover, search, and mark a bit per signer. */
    method CheckSignatures(t: Transmission) returns (r: Result<seq<nat>>)
      requires t.Sized() && StrictlySorted(Signers(oracles)) && |oracles| <= MAX_ORACLES
      ensures r == VerifySignatures(env, oracles, config.f, t)
    {
      if |t.signatures| % SIGNATURE_LEN != 0 {
        return Err(InvalidInput);
      }
      var signatureCount := t.SignatureCount();
      if signatureCount != config.f + 1 {
        return Err(WrongNumberOfSignatures);
      }
      var uniques: bv32 := 0;
      var indices: seq<nat> := [];
      for k := 0 to signatureCount
        invariant SignerIndices(env, oracles, t, k) == Ok(indices)
        invariant uniques == BitMask.MaskOf(indices)
      {
        var (signature, recoveryId) := t.Signature(k);
        var address := env.recover(t.Message(), signature, recoveryId);
        if address.Err? {
          SignersStop(env, oracles, t, k + 1, signatureCount);
          return Err(address.error);
        }
        var search := BinarySearch(Signers(oracles), address.value);
        SearchFindsSigner(oracles, address.value, search);
        if search.Absent? {
          SignersStop(env, oracles, t, k + 1, signatureCount);
          return Err(UnauthorizedSigner);
        }
        BitMask.MaskSnoc(indices, search.index);
        uniques := BitMask.SetBit(uniques, search.index);
        indices := indices + [search.index];
      }
      if BitMask.CountOnes(uniques) != signatureCount {
        return Err(DuplicateSigner);
      }
      return Ok(indices);
    }

    /** `transmit`, up to the round it submits to the feed; `isWriter` says whether the feed takes
        rounds from this aggregator. */
    method Transmit(transmitter: Bytes32, raw: seq<byte>, sysvar: Option<ComputeBudget.Sysvar>,
                    feed: StoreFeed.Feed, slot: u64, isWriter: bool) returns (r: Result<seq<Payment>>)
      requires Inv(Value()) && feed.Valid()
      modifies this`config, this`oracles, this`answers, feed, feed.live, feed.historical
      ensures Inv(Value()) && feed.Valid()
      ensures Does(ExecTransmit(env, old(Value()), transmitter, raw, sysvar, isWriter && old(feed.HasRoom())),
                   old(Value()), Value(), r)
      ensures r.Ok? ==> |answers| > 0 && Appended(old(feed.log), feed.log, slot, answers[|answers| - 1])
      ensures r.Err? ==> feed.log == old(feed.log) && feed.flagged == old(feed.flagged)
      ensures old(Mirrors(feed.log, answers)) ==> Mirrors(feed.log, answers)
    {
      var received := Receive(transmitter, raw, sysvar);
      if received.Err? {
        return Err(received.error);
      }
      var (t, accepted) := received.value;
      var report := accepted.report;
      // The round is submitted last; when that fails, the runtime undoes the rest.
      var submitted := SubmitRound(feed, slot, report.median, report.timestamp, isWriter);
      if !submitted {
        return Err(StoreFailure);
      }
      Apply(transmitter, t, accepted);
      if old(Mirrors(feed.log, answers)) {
        AppendedMirrors(old(feed.log), feed.log, slot, old(answers), Answer(report.median, report.timestamp));
      }
      return Ok([]);
    }

    /** `transmit` before its first state change. */
    method Receive(transmitter: Bytes32, raw: seq<byte>, sysvar: Option<ComputeBudget.Sysvar>)
      returns (r: Result<(Transmission, Acceptance)>)
      requires Inv(Value())
      ensures r.Ok? ==>
                var (t, a) := r.value;
                && ParseTransmission(raw) == Ok(t) && CheckTransmit(env, Value(), transmitter, t, sysvar) == Ok(a)
                && config.minAnswer <= a.report.median <= config.maxAnswer && a.report.timestamp <= U32_MAX
      ensures r.Err? ==> forall accepts :: ExecTransmit(env, Value(), transmitter, raw, sysvar, accepts) == Err(r.error)
    {
      var parsed := ParseTransmission(raw);
      if parsed.Err? {
        return Err(parsed.error);
      }
      var accepted := Check(transmitter, parsed.value, sysvar);
      if accepted.Err? {
        return Err(accepted.error);
      }
      AcceptedReport(env, Value(), transmitter, parsed.value, sysvar);
      return Ok((parsed.value, accepted.value));
    }

    /** The state changes of `transmit_impl`. */
    method Apply(transmitter: Bytes32, t: Transmission, a: Acceptance)
      requires Inv(Value()) && t.Sized() && a.transmitter < |oracles| && config.latestRoundId < U32_MAX
      modifies this`config, this`oracles, this`answers
      ensures Value() == ApplyTransmit(old(Value()), transmitter, t, a)
      ensures Inv(Value())
    {
      TransmitKeepsInv(env, Value(), transmitter, t, a);
      var amount := SaturatingAdd64(a.reimbursement, config.billing.transmission);
      var oracle := oracles[a.transmitter];
      oracles := oracles[a.transmitter := oracle.(payment := SaturatingAdd64(oracle.payment, amount))];
      config := config.(epoch := t.Epoch(), round := t.Round(), latestRoundId := config.latestRoundId + 1,
                        latestTransmitter := transmitter);
      answers := answers + [Answer(a.report.median, a.report.timestamp)];
    }

    /** The checks of `transmit_impl`. */
    method Check(transmitter: Bytes32, t: Transmission, sysvar: Option<ComputeBudget.Sysvar>)
      returns (r: Result<Acceptance>)
      requires t.Sized() && Inv(Value())
      ensures r == CheckTransmit(env, Value(), transmitter, t, sysvar)
    {
      var (epoch, round) := (t.Epoch(), t.Round());
      if !(config.epoch < epoch || (config.epoch == epoch && config.round < round)) {
        return Err(StaleReport);
      }
      var index := FindTransmitter(oracles, transmitter);
      if index.None? {
        return Err(UnauthorizedTransmitter);
      }
      if config.configDigest != t.ConfigDigest() {
        return Err(DigestMismatch);
      }
      var signers := CheckSignatures(t);
      if signers.Err? {
        return Err(signers.error);
      }
      var report := Report.Unpack(t.report).value;
      if config.f >= report.observerCount {
        return Err(InvalidInput);
      }
      if !(config.minAnswer <= report.median <= config.maxAnswer) {
        return Err(MedianOutOfRange);
      }
      if config.latestRoundId == U32_MAX {
        return Err(Overflow);
      }
      var price := UnitPrice(sysvar);
      if price.Err? {
        return Err(price.error);
      }
      var reimbursement := ComputeBudget.Reimbursement(report.juelsPerLamport, t.SignatureCount(), price.value);
      return Ok(Acceptance(index.value, signers.value, reimbursement, report));
    }

    method WithdrawPayment(authority: Bytes32, payee: Bytes32) returns (r: Result<seq<Payment>>)
      modifies this`oracles, this`tokens
      ensures Does(ExecWithdrawPayment(old(Value()), authority, payee), old(Value()), Value(), r)
    {
      if payee !in tokens || tokens[payee].mint != config.tokenMint {
        return Err(InvalidInput);
      }
      var index := FindPayee(oracles, payee);
      if index.None? {
        return Err(Unauthorized);
      }
      if tokens[payee].owner != authority {
        return Err(Unauthorized);
      }
      var i := index.value;
      var owed := Owed(config.billing, oracles[i], config.latestRoundId);
      if owed.Err? {
        return Err(owed.error);
      }
      if owed.value == 0 {
        oracles := oracles[i := oracles[i].(payment := 0, fromRoundId := config.latestRoundId)];
        return Ok([]);
      }
      var transfer := TransferTokens(tokens, config.tokenVault, payee, owed.value);
      if transfer.Err? {
        return Err(transfer.error);
      }
      oracles := oracles[i := oracles[i].(payment := 0, fromRoundId := config.latestRoundId)];
      tokens := transfer.value;
      return Ok([Payment(i, payee, owed.value)]);
    }

    /** `propose_config`. */
    method ProposeConfig(key: Bytes32, authority: Bytes32, newOracles: seq<NewOracle>, f: byte)
      returns (r: Result<seq<Payment>>)
      modifies this`proposals
      ensures Does(ExecOnProposal(old(Value()), key, authority, ProposalIx.ProposeConfig(newOracles, f)),
                   old(Value()), Value(), r)
    {
      if key !in proposals {
        return Err(InvalidInput);
      }
      var proposal := proposals[key];
      if proposal.owner != authority {
        return Err(Unauthorized);
      }
      if f == 0 {
        return Err(InvalidInput);
      }
      if |newOracles| > MAX_ORACLES {
        return Err(TooManyOracles);
      }
      if 3 * f >= |newOracles| {
        return Err(InvalidInput);
      }
      if proposal.finalized || proposal.offchain.version == 0 {
        return Err(InvalidInput);
      }
      var staged := Stage(newOracles);
      var sorted := SortOracles(staged);
      var duplicateSigner := FindDuplicateSigner(sorted);
      if duplicateSigner {
        return Err(DuplicateSigner);
      }
      var duplicateTransmitter := FindDuplicateTransmitter(sorted);
      if duplicateTransmitter {
        return Err(DuplicateTransmitter);
      }
      proposals := proposals[key := proposal.(oracles := sorted, f := f)];
      return Ok([]);
    }

    /** `accept_proposal`; the runtime undoes the payments when a later check fails. */
    method AcceptProposal(key: Bytes32, authority: Bytes32, digest: seq<byte>, payees: seq<Bytes32>, receiver: Bytes32,
                          slot: nat)
      returns (r: Result<seq<Payment>>)
      requires Inv(Value())
      modifies this`config, this`offchain, this`oracles, this`proposals, this`tokens
      ensures Does(ExecAccept(env, old(Value()), key, authority, digest, payees, receiver, slot),
                   old(Value()), Value(), r)
    {
      if key !in proposals {
        return Err(InvalidInput);
      }
      if authority != config.owner {
        return Err(Unauthorized);
      }
      if |digest| != 32 {
        return Err(InvalidInput);
      }
      var savedOracles, savedTokens := oracles, tokens;
      r := PayOracles(payees, receiver);
      if r.Err? {
        return;
      }
      var proposal := proposals[key];
      var error := CheckProposal(proposal, digest);
      if error.Some? {
        oracles, tokens := savedOracles, savedTokens;
        return Err(error.value);
      }
      if config.configCount == U32_MAX {
        oracles, tokens := savedOracles, savedTokens;
        return Err(Aborted);
      }
      InstallProposal(proposal, slot);
      proposals := proposals - {key};
    }

    method CheckProposal(proposal: Proposal, digest: seq<byte>) returns (error: Option<Error>)
      requires ProposalOk(proposal)
      ensures error == if version != proposal.version || !proposal.finalized then Some(InvalidInput)
                       else if env.hash(ProposalPreimage(proposal)) != digest then Some(DigestMismatch)
                       else if proposal.tokenMint != config.tokenMint then Some(InvalidTokenAccount)
                       else None
    {
      if version != proposal.version {
        return Some(InvalidInput);
      }
      if !proposal.finalized {
        return Some(InvalidInput);
      }
      var input := ProposalDigestInput(proposal);
      if env.hash(input) != digest {
        return Some(DigestMismatch);
      }
      if proposal.tokenMint != config.tokenMint {
        return Some(InvalidTokenAccount);
      }
      return None;
    }

    /** Clear the oracles, push the proposed ones, and recompute the config digest. */
    method InstallProposal(proposal: Proposal, slot: nat)
      requires |proposal.oracles| <= MAX_ORACLES && config.configCount < U32_MAX
      modifies this`config, this`offchain, this`oracles
      ensures Install(env, old(Value()), proposal, slot) == Ok(Value())
    {
      var newOracles := PushOracles(proposal.oracles, config.latestRoundId);
      var newConfig := NewConfig(env, config, proposal, slot, newOracles);
      oracles, offchain, config := newOracles, proposal.offchain, newConfig;
    }
  }

  /** The call into the store. */
  method SubmitRound(feed: StoreFeed.Feed, slot: u64, median: i128, timestamp: u32, isWriter: bool) returns (ok: bool)
    requires feed.Valid()
    modifies feed, feed.live, feed.historical
    ensures feed.Valid() && (ok <==> isWriter && old(feed.HasRoom()))
    ensures ok ==> Appended(old(feed.log), feed.log, slot, Answer(median, timestamp))
    ensures !ok ==> feed.log == old(feed.log) && feed.flagged == old(feed.flagged)
  {
    if !isWriter {
      return false;
    }
    ok := feed.Submit(slot, timestamp, median);
  }

  /** The configuration a proposal installs, with its recomputed digest. */
  method NewConfig(env: Env, current: Config, proposal: Proposal, slot: nat, oracles: seq<Oracle>)
    returns (config: Config)
    requires current.configCount < U32_MAX && |oracles| <= MAX_ORACLES
    ensures config == InstalledConfig(env, current, proposal, slot, oracles)
  {
    config := current.(f := proposal.f, configSlot := slot, configCount := current.configCount + 1);
    var input := ConfigDigestInput(env.programId, env.stateId, config, proposal.offchain, oracles);
    config := config.(configDigest := Prefixed(env.hash(input)));
  }

  /** The oracles of a proposal, as given, without payees. */
  method Stage(newOracles: seq<NewOracle>) returns (staged: seq<ProposedOracle>)
    ensures staged == Proposed(newOracles)
  {
    staged := [];
    for i := 0 to |newOracles|
      invariant staged == Proposed(newOracles)[..i]
    {
      staged := staged + [ProposedOracle(newOracles[i].transmitter, newOracles[i].signer, DEFAULT_KEY)];
    }
  }

  /** Push the proposed oracles onto a cleared list, with nothing owed yet. */
  method PushOracles(proposed: seq<ProposedOracle>, fromRoundId: u32) returns (oracles: seq<Oracle>)
    ensures oracles == Accepted(proposed, fromRoundId)
  {
    oracles := [];
    for i := 0 to |proposed|
      invariant oracles == Accepted(proposed, fromRoundId)[..i]
    {
      var o := proposed[i];
      oracles := oracles + [Oracle(o.transmitter, o.signer, o.payee, DEFAULT_KEY, fromRoundId, 0)];
    }
  }

  /** Compare successive signers. */
  method FindDuplicateSigner(s: seq<ProposedOracle>) returns (found: bool)
    ensures found <==> HasDuplicateSigner(s)
  {
    var i := 0;
    while i + 1 < |s|
      invariant 0 <= i
      invariant forall j {:trigger s[j]} :: 0 <= j < i && j + 1 < |s| ==> s[j].signer != s[j + 1].signer
    {
      if s[i].signer == s[i + 1].signer {
        return true;
      }
      i := i + 1;
    }
    return false;
  }

  /** Insert the transmitters into a set, one by one. */
  method FindDuplicateTransmitter(s: seq<ProposedOracle>) returns (found: bool)
    ensures found <==> HasDuplicateTransmitter(s)
  {
    var transmitters: set<Bytes32> := {};
    for i := 0 to |s|
      invariant forall j :: 0 <= j < i ==> s[j].transmitter in transmitters
      invariant forall key :: key in transmitters ==> exists j :: 0 <= j < i && s[j].transmitter == key
      invariant forall j, k :: 0 <= j < k < i ==> s[j].transmitter != s[k].transmitter
    {
      if s[i].transmitter in transmitters {
        return true;
      }
      transmitters := transmitters + {s[i].transmitter};
    }
    return false;
  }
}

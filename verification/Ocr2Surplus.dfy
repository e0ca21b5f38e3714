/** The vault's balance beyond what is due, over whole runs. */
module Ocr2Surplus {
  import opened Bytes
  import opened Ocr2Types
  import opened Ocr2
  import opened Ocr2Invariants
  import opened Ocr2Ledger
  import opened Ocr2Solvency

  /** The vault's balance beyond what is due. */
  ghost function Surplus(c: Chain): int
    requires c.config.tokenVault in c.tokens
  {
    c.tokens[c.config.tokenVault].amount - Due(c.config, c.oracles)
  }

  lemma {:induction false} DueAfterUpdate(config: Config, oracles: seq<Oracle>, i: nat, oracle: Oracle)
    requires i < |oracles|
    ensures Due(config, oracles[i := oracle])
            == Due(config, oracles)
               + config.billing.observation * (config.latestRoundId - oracle.fromRoundId) + oracle.payment
               - config.billing.observation * (config.latestRoundId - oracles[i].fromRoundId) - oracles[i].payment
  {
    var n := |oracles| - 1;
    if i < n {
      DueAfterUpdate(config, oracles[..n], i, oracle);
      assert oracles[i := oracle][..n] == oracles[..n][i := oracle];
    } else {
      assert oracles[i := oracle][..n] == oracles[..n];
    }
  }

  lemma DueAfterSettling(config: Config, oracles: seq<Oracle>, i: nat)
    requires i < |oracles|
    ensures Due(config, oracles[i := oracles[i].(payment := 0, fromRoundId := config.latestRoundId)])
            == Due(config, oracles)
               - config.billing.observation * (config.latestRoundId - oracles[i].fromRoundId) - oracles[i].payment
  {
    DueAfterUpdate(config, oracles, i, oracles[i].(payment := 0, fromRoundId := config.latestRoundId));
  }

  /** What payments do to the vault: those back into it cost nothing. */
  lemma {:induction false} PayAllVault(tokens: map<Bytes32, TokenAccount>, vault: Bytes32, payments: seq<Payment>)
    requires vault in tokens && PayAll(tokens, vault, payments).Ok?
    ensures var tokens' := PayAll(tokens, vault, payments).value;
            && vault in tokens'
            && tokens'[vault].amount == tokens[vault].amount - Total(payments) + Received(payments, vault)
  {
    if payments != [] {
      PayAllVault(tokens, vault, payments[..|payments| - 1]);
    }
  }

  ghost predicate HasVault(c: Chain) {
    c.config.tokenVault in c.tokens
  }

  /** An oracle withdrawing its own payment leaves the surplus as it was, unless it is paid into the vault. */
  lemma WithdrawPaymentKeepsSurplus(c: Chain, authority: Bytes32, payee: Bytes32)
    requires HasVault(c) && ExecWithdrawPayment(c, authority, payee).Ok?
    ensures var effect := ExecWithdrawPayment(c, authority, payee).value;
            && effect.chain.config == c.config && HasVault(effect.chain)
            && Surplus(effect.chain) == Surplus(c) + Received(effect.payments, c.config.tokenVault)
  {
    var (vault, index) := (c.config.tokenVault, FindPayee(c.oracles, payee).value);
    var amount := Owed(c.config.billing, c.oracles[index], c.config.latestRoundId).value;
    DueAfterSettling(c.config, c.oracles, index);
    if amount > 0 {
      ReceivedOne(Payment(index, payee, amount), vault);
      if payee != vault {
        DebitVault(c.tokens, vault, payee, amount);
      }
    }
  }

  lemma ReceivedOne(p: Payment, key: Bytes32)
    ensures Received([p], key) == if p.to == key then p.amount else 0
  {
    assert Received([p][..0], key) == 0;
  }

  /** So does paying everyone, at whatever rate the rounds to come are paid. */
  lemma PayOutKeepsSurplus(c: Chain, payees: seq<Bytes32>, receiver: Bytes32, billing: Billing)
    requires HasVault(c) && PayOraclesImpl(c, payees, receiver).Ok?
    ensures var effect := PayOraclesImpl(c, payees, receiver).value;
            var c' := effect.chain.(config := effect.chain.config.(billing := billing));
            HasVault(c') && Surplus(c') == Surplus(c) + Received(effect.payments, c.config.tokenVault)
  {
    PayFrame(c, payees, receiver);
    SettleTotal(c.config, c.oracles, payees, c.tokens, receiver);
    PayAllVault(c.tokens, c.config.tokenVault, Settle(c.config, c.oracles, payees, c.tokens, receiver).value);
    SettledDueNothing(c.config.(billing := billing), c.oracles);
  }

  // ----- One instruction

  /** What moves the surplus: deposits, payments back into the vault, rounds, and withdrawals of it. */
  datatype Flow = Flow(deposited: nat, returned: nat, accrued: nat, withdrawn: nat)

  const NO_FLOW := Flow(0, 0, 0, 0)

  /** What a round adds to what is due: the rate for everyone, and what the transmitter's account took. */
  ghost function Accrual(c: Chain, a: Acceptance): nat
    requires a.transmitter < |c.oracles|
  {
    |c.oracles| * c.config.billing.observation + Credit(c, a) - Dropped(c, a)
  }

  /** What `withdraw_funds` takes: the requested amount, at most the surplus. */
  ghost function Taken(c: Chain, recipient: Bytes32, amount: nat): nat
    requires HasVault(c)
  {
    if recipient == c.config.tokenVault || Surplus(c) <= 0 then 0 else Min(amount, Surplus(c))
  }

  ghost function FlowOf(env: Env, c: Chain, ix: Ix): Flow
    requires HasVault(c)
  {
    if Exec(env, c, ix).Err? then NO_FLOW else
    match ix
    case Transmit(_, _, _, _) => NO_FLOW.(accrued := Accrual(c, AcceptanceOf(env, c, ix)))
    case Bill(_, _, WithdrawFunds(recipient, amount)) => NO_FLOW.(withdrawn := Taken(c, recipient, amount))
    case Outside(TokenActivity(tokens)) =>
      NO_FLOW.(deposited := tokens[c.config.tokenVault].amount - c.tokens[c.config.tokenVault].amount)
    case _ => NO_FLOW.(returned := Received(Exec(env, c, ix).value.payments, c.config.tokenVault))
  }

  /** The surplus after a flow. */
  ghost predicate Moves(c: Chain, c': Chain, flow: Flow) {
    && HasVault(c) && HasVault(c')
    && Surplus(c') == Surplus(c) + flow.deposited + flow.returned - flow.accrued - flow.withdrawn
  }

  lemma {:induction false} DueNextRound(config: Config, oracles: seq<Oracle>)
    requires config.latestRoundId < U32_MAX
    ensures Due(config.(latestRoundId := config.latestRoundId + 1), oracles)
            == Due(config, oracles) + |oracles| * config.billing.observation
  {
    if oracles != [] {
      var (front, last) := (oracles[..|oracles| - 1], oracles[|oracles| - 1]);
      DueNextRound(config, front);
      Distribute(config.billing.observation, config.latestRoundId + 1 - last.fromRoundId, 1);
      Distribute(config.billing.observation, |oracles|, 1);
    }
  }

  /** What is due depends on the rate and the round count alone. */
  lemma {:induction false} DueSameRates(config: Config, config': Config, oracles: seq<Oracle>)
    requires config'.billing == config.billing && config'.latestRoundId == config.latestRoundId
    ensures Due(config', oracles) == Due(config, oracles)
  {
    if oracles != [] {
      DueSameRates(config, config', oracles[..|oracles| - 1]);
    }
  }

  lemma {:induction false} DueSameAccounts(config: Config, oracles: seq<Oracle>, oracles': seq<Oracle>)
    requires |oracles'| == |oracles|
    requires forall i :: 0 <= i < |oracles| ==>
               oracles'[i].fromRoundId == oracles[i].fromRoundId && oracles'[i].payment == oracles[i].payment
    ensures Due(config, oracles') == Due(config, oracles)
  {
    if oracles != [] {
      var n := |oracles| - 1;
      DueSameAccounts(config, oracles[..n], oracles'[..n]);
    }
  }

  lemma TransmitDue(c: Chain, transmitter: Bytes32, t: Transmission, a: Acceptance)
    requires t.Sized() && a.transmitter < |c.oracles| && c.config.latestRoundId < U32_MAX
    ensures var c' := ApplyTransmit(c, transmitter, t, a);
            Due(c'.config, c'.oracles) == Due(c.config, c.oracles) + Accrual(c, a)
  {
    var c' := ApplyTransmit(c, transmitter, t, a);
    var next := c.config.(latestRoundId := c.config.latestRoundId + 1);
    DueNextRound(c.config, c.oracles);
    DueAfterUpdate(next, c.oracles, a.transmitter, c'.oracles[a.transmitter]);
    DueSameRates(next, c'.config, c'.oracles);
  }

  lemma TransmitMoves(env: Env, c: Chain, ix: Ix)
    requires HasVault(c) && ix.Transmit? && Exec(env, c, ix).Ok?
    ensures Moves(c, Step(env, c, ix), NO_FLOW.(accrued := Accrual(c, AcceptanceOf(env, c, ix))))
  {
    TransmitDue(c, ix.transmitter, ParseTransmission(ix.raw).value, AcceptanceOf(env, c, ix));
  }

  lemma WithdrawFundsMoves(c: Chain, recipient: Bytes32, amount: nat)
    requires HasVault(c) && NotAhead(c.oracles, c.config.latestRoundId) && ExecWithdrawFunds(c, recipient, amount).Ok?
    ensures Moves(c, ExecWithdrawFunds(c, recipient, amount).value.chain,
                  NO_FLOW.(withdrawn := Taken(c, recipient, amount)))
  {
    TotalDueExact(c.config, c.oracles);
    if recipient != c.config.tokenVault {
      var available := SaturatingSub(c.tokens[c.config.tokenVault].amount, TotalDue(c.config, c.oracles).value);
      DebitVault(c.tokens, c.config.tokenVault, recipient, Min(amount, available));
    }
  }

  lemma AcceptMoves(env: Env, c: Chain, ix: Ix)
    requires HasVault(c) && ix.AcceptProposal? && Exec(env, c, ix).Ok?
    ensures Moves(c, Step(env, c, ix),
                  NO_FLOW.(returned := Received(Exec(env, c, ix).value.payments, c.config.tokenVault)))
  {
    PayOutKeepsSurplus(c, ix.payees, ix.receiver, c.config.billing);
    PayFrame(c, ix.payees, ix.receiver);
    var paid := PayOraclesImpl(c, ix.payees, ix.receiver).value;
    assert paid.chain.config.(billing := c.config.billing) == paid.chain.config;
    SettledDueNothing(c.config, c.oracles);
    var c' := Step(env, c, ix);
    NothingDueYet(c'.config, c.proposals[ix.proposal].oracles);
  }

  lemma {:induction false} NothingDueYet(config: Config, oracles: seq<ProposedOracle>)
    ensures Due(config, Accepted(oracles, config.latestRoundId)) == 0
  {
    if oracles != [] {
      var n := |oracles| - 1;
      NothingDueYet(config, oracles[..n]);
      assert Accepted(oracles, config.latestRoundId)[..n] == Accepted(oracles[..n], config.latestRoundId);
    }
  }

  lemma BillingMoves(env: Env, c: Chain, ix: Ix)
    requires HasVault(c) && NotAhead(c.oracles, c.config.latestRoundId) && ix.Bill? && Exec(env, c, ix).Ok?
    ensures Moves(c, Step(env, c, ix), FlowOf(env, c, ix))
  {
    match ix.billingIx
    case SetBilling(billing, payees, receiver) => PayOutKeepsSurplus(c, payees, receiver, billing);
    case PayOracles(payees, receiver) =>
      PayOutKeepsSurplus(c, payees, receiver, c.config.billing);
      PayFrame(c, payees, receiver);
    case WithdrawFunds(recipient, amount) => WithdrawFundsMoves(c, recipient, amount);
  }

  /** Token activity moves the vault's balance only; the rest moves neither balance nor accounts. */
  lemma OthersMove(env: Env, c: Chain, ix: Ix)
    requires HasVault(c) && Exec(env, c, ix).Ok?
    requires ix.OnProposal? || ix.Admin? || ix.Payeeship? || ix.RequestNewRound? || ix.Outside?
    ensures Moves(c, Step(env, c, ix), FlowOf(env, c, ix))
  {
    var c' := Step(env, c, ix);
    OthersMoveNothing(env, c, ix);
    OthersKeepVault(env, c, ix);
    DueSameAccounts(c.config, c.oracles, c'.oracles);
    DueSameRates(c.config, c'.config, c'.oracles);
  }

  lemma OthersKeepVault(env: Env, c: Chain, ix: Ix)
    requires HasVault(c) && Exec(env, c, ix).Ok?
    requires ix.OnProposal? || ix.Admin? || ix.Payeeship? || ix.RequestNewRound? || ix.Outside?
    ensures var (c', vault) := (Exec(env, c, ix).value.chain, c.config.tokenVault);
            && c'.config.tokenVault == vault && vault in c'.tokens
            && c'.tokens[vault].amount == c.tokens[vault].amount + FlowOf(env, c, ix).deposited
  {
    match ix
    case OnProposal(key, authority, action) => ProposalFrame(c, key, authority, action);
    case Payeeship(authority, transmitter, action) => PayeeshipFrame(c, authority, transmitter, action);
    case _ =>
  }

  /** Every instruction moves the surplus by its own flow and nothing else. */
  lemma StepMoves(env: Env, c: Chain, ix: Ix)
    requires HasVault(c) && NotAhead(c.oracles, c.config.latestRoundId)
    ensures Moves(c, Step(env, c, ix), FlowOf(env, c, ix))
  {
    if Exec(env, c, ix).Ok? {
      if ix.Transmit? {
        TransmitMoves(env, c, ix);
      } else if ix.Bill? {
        BillingMoves(env, c, ix);
      } else if ix.AcceptProposal? {
        AcceptMoves(env, c, ix);
      } else if ix.WithdrawPayment? {
        WithdrawPaymentKeepsSurplus(c, ix.authority, ix.payee);
      } else {
        OthersMove(env, c, ix);
      }
    }
  }

  // ----- Whole runs

  function Plus(a: Flow, b: Flow): Flow {
    Flow(a.deposited + b.deposited, a.returned + b.returned, a.accrued + b.accrued, a.withdrawn + b.withdrawn)
  }

  /** The flows of a run, added up. */
  ghost function RunFlow(env: Env, c: Chain, ixs: seq<Ix>): Flow
    requires Initial(c) && HasVault(c)
  {
    if ixs == [] then NO_FLOW else
    RunKeepsVault(env, c, ixs[..|ixs| - 1]);
    Plus(RunFlow(env, c, ixs[..|ixs| - 1]), FlowOf(env, Run(env, c, ixs[..|ixs| - 1]), ixs[|ixs| - 1]))
  }

  lemma {:induction false} RunKeepsVault(env: Env, c: Chain, ixs: seq<Ix>)
    requires Initial(c) && HasVault(c)
    ensures HasVault(Run(env, c, ixs))
  {
    if ixs != [] {
      RunKeepsVault(env, c, ixs[..|ixs| - 1]);
      RunKeepsInv(env, c, ixs[..|ixs| - 1]);
      StepMoves(env, Run(env, c, ixs[..|ixs| - 1]), ixs[|ixs| - 1]);
    }
  }

  /** The vault's account of a run: its balance beyond what is due is what it started with, plus deposits and
      payments back into it, less what every round accrued and what was withdrawn. Nothing else moves it. */
  lemma {:induction false} SurplusExact(env: Env, c: Chain, ixs: seq<Ix>)
    requires Initial(c) && HasVault(c)
    ensures var (now, flow) := (Run(env, c, ixs), RunFlow(env, c, ixs));
            && HasVault(now)
            && now.tokens[now.config.tokenVault].amount - Due(now.config, now.oracles)
               == c.tokens[c.config.tokenVault].amount + flow.deposited + flow.returned - flow.accrued - flow.withdrawn
  {
    if ixs != [] {
      var before := ixs[..|ixs| - 1];
      SurplusExact(env, c, before);
      RunKeepsInv(env, c, before);
      StepMoves(env, Run(env, c, before), ixs[|ixs| - 1]);
    }
  }
}

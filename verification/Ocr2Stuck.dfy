/** An oracle owed more than an amount can hold, and what that blocks. */
module Ocr2Stuck {
  import opened Bytes
  import opened Collections
  import opened Ocr2Types
  import opened Ocr2
  import opened Ocr2Invariants
  import opened Ocr2Ledger
  import opened Ocr2Solvency
  import ComputeBudget

  /** An oracle is owed more than an amount can hold. */
  ghost predicate Stuck(c: Chain, i: nat) {
    i < |c.oracles| && Unpaid(c, i) > U64_MAX
  }

  /** Instructions that settle, or that need the total. */
  predicate Settles(ix: Ix) {
    ix.Bill? || ix.AcceptProposal?
  }

  lemma StuckPaysNobody(c: Chain, i: nat, payees: seq<Bytes32>, receiver: Bytes32)
    requires NotAhead(c.oracles, c.config.latestRoundId) && Stuck(c, i)
    ensures PayOraclesImpl(c, payees, receiver).Err?
  {
    if |payees| == |c.oracles| {
      SettleExact(c, payees, receiver);
    }
  }

  lemma StuckTotal(c: Chain, i: nat)
    requires NotAhead(c.oracles, c.config.latestRoundId) && Stuck(c, i)
    ensures TotalDue(c.config, c.oracles).Err?
  {
    TotalDueExact(c.config, c.oracles);
    UnpaidAtMostDue(c, |c.oracles|, i);
    assert c.oracles[..|c.oracles|] == c.oracles;
  }

  /** While one oracle is stuck, no payment, rate change, surplus withdrawal or new configuration goes
      through for anyone. */
  lemma StuckBlocks(env: Env, c: Chain, i: nat, ix: Ix)
    requires NotAhead(c.oracles, c.config.latestRoundId) && Stuck(c, i) && Settles(ix)
    ensures Exec(env, c, ix).Err?
  {
    match ix
    case AcceptProposal(_, _, _, payees, receiver, _) => StuckPaysNobody(c, i, payees, receiver);
    case Bill(_, _, SetBilling(_, payees, receiver)) => StuckPaysNobody(c, i, payees, receiver);
    case Bill(_, _, PayOracles(payees, receiver)) => StuckPaysNobody(c, i, payees, receiver);
    case Bill(_, _, WithdrawFunds(_, _)) => StuckTotal(c, i);
  }

  lemma WithdrawKeepsStuck(c: Chain, i: nat, authority: Bytes32, payee: Bytes32)
    requires NotAhead(c.oracles, c.config.latestRoundId) && Stuck(c, i)
    requires ExecWithdrawPayment(c, authority, payee).Ok?
    ensures Stuck(ExecWithdrawPayment(c, authority, payee).value.chain, i)
  {
    var index := FindPayee(c.oracles, payee).value;
    OwedExact(c, index);
    assert index != i;
  }

  /** What a round leaves stuck: exactly those whose old debt, the rate and the credit together exceed 64 bits. */
  lemma StuckByRound(env: Env, c: Chain, i: nat, ix: Ix)
    requires i < |c.oracles| && ix.Transmit? && Exec(env, c, ix).Ok?
    ensures var a := AcceptanceOf(env, c, ix);
            Stuck(Step(env, c, ix), i) <==>
            Unpaid(c, i) + c.config.billing.observation
                + (if i == a.transmitter then Credit(c, a) - Dropped(c, a) else 0)
            > U64_MAX
  {
    TransmitUnpaid(c, ix.transmitter, ParseTransmission(ix.raw).value, AcceptanceOf(env, c, ix), i);
  }

  lemma UnpaidAtLeastPayment(c: Chain, i: nat)
    requires i < |c.oracles| && c.oracles[i].fromRoundId <= c.config.latestRoundId
    ensures Unpaid(c, i) >= c.oracles[i].payment
  {
    MulOrder(c.config.billing.observation, 0, c.config.latestRoundId - c.oracles[i].fromRoundId);
  }

  /** An accepted transmit whose reimbursement, added to what is owed already, no longer fits: its transmitter
      is stuck as soon as that round is counted, if rounds are paid at all. */
  lemma SaturatedGetsStuck(env: Env, c: Chain, ix: Ix)
    requires NotAhead(c.oracles, c.config.latestRoundId) && ix.Transmit? && Exec(env, c, ix).Ok?
    requires c.config.billing.observation > 0
    requires var a := AcceptanceOf(env, c, ix); c.oracles[a.transmitter].payment + Credit(c, a) >= U64_MAX
    ensures Stuck(Step(env, c, ix), AcceptanceOf(env, c, ix).transmitter)
  {
    var a := AcceptanceOf(env, c, ix);
    UnpaidAtLeastPayment(c, a.transmitter);
    StuckByRound(env, c, a.transmitter, ix);
  }

  /** One report is enough: the largest price per lamport, as a negative one is read, and the largest unit price. */
  lemma OneReportSticks(env: Env, c: Chain, ix: Ix)
    requires NotAhead(c.oracles, c.config.latestRoundId) && ix.Transmit? && Exec(env, c, ix).Ok?
    requires c.config.billing.observation > 0
    requires AcceptanceOf(env, c, ix).report.juelsPerLamport == U64_MAX && UnitPrice(ix.sysvar) == Ok(Some(U64_MAX))
    ensures Stuck(Step(env, c, ix), AcceptanceOf(env, c, ix).transmitter)
  {
    ReimbursesMost(ParseTransmission(ix.raw).value.SignatureCount());
    SaturatedGetsStuck(env, c, ix);
  }

  lemma ReimbursesMost(signatures: nat)
    ensures ComputeBudget.Reimbursement(U64_MAX, signatures, Some(U64_MAX)) == U64_MAX
  {
    MulMonotone(1, 25_000 * signatures + 21_000, U64_MAX, U64_MAX);
  }

  lemma StepKeepsStuck(env: Env, c: Chain, i: nat, ix: Ix)
    requires NotAhead(c.oracles, c.config.latestRoundId) && Stuck(c, i)
    ensures Stuck(Step(env, c, ix), i)
  {
    if Settles(ix) {
      StuckBlocks(env, c, i, ix);
    } else if Exec(env, c, ix).Ok? {
      if ix.Transmit? {
        StuckByRound(env, c, i, ix);
      } else if ix.WithdrawPayment? {
        WithdrawKeepsStuck(c, i, ix.authority, ix.payee);
      } else {
        OthersMoveNothing(env, c, ix);
        assert Unpaid(Step(env, c, ix), i) == Unpaid(c, i);
      }
    }
  }

  lemma {:induction false} StuckPersists(env: Env, c: Chain, ixs: seq<Ix>, n: nat, i: nat)
    requires Initial(c) && n <= |ixs| && Stuck(Run(env, c, ixs[..n]), i)
    ensures Stuck(Run(env, c, ixs), i)
  {
    if n == |ixs| {
      assert ixs[..n] == ixs;
    } else {
      var before := ixs[..|ixs| - 1];
      assert before[..n] == ixs[..n];
      StuckPersists(env, c, before, n, i);
      RunKeepsInv(env, c, before);
      StepKeepsStuck(env, Run(env, c, before), i, ixs[|ixs| - 1]);
    }
  }

  /** Nothing undoes it: once an oracle is stuck in a run, then after every continuation of the run it
      is still stuck, everything that settles fails, and so does closing the account. */
  lemma StuckForever(env: Env, c: Chain, ixs: seq<Ix>, n: nat, i: nat)
    requires Initial(c) && n <= |ixs| && Stuck(Run(env, c, ixs[..n]), i)
    ensures Stuck(Run(env, c, ixs), i)
    ensures forall ix | Settles(ix) :: Exec(env, Run(env, c, ixs), ix).Err?
    ensures forall authority, payees, receiver :: ExecClose(Run(env, c, ixs), authority, payees, receiver).Err?
  {
    StuckPersists(env, c, ixs, n, i);
    RunKeepsInv(env, c, ixs);
    forall authority, payees, receiver
      ensures ExecClose(Run(env, c, ixs), authority, payees, receiver).Err?
    {
      StuckPaysNobody(Run(env, c, ixs), i, payees, receiver);
    }
    forall ix | Settles(ix)
      ensures Exec(env, Run(env, c, ixs), ix).Err?
    {
      StuckBlocks(env, Run(env, c, ixs), i, ix);
    }
  }
}

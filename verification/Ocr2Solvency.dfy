/** The vault against what is due: the program's total, the monitor's total, and
    what withdrawing and paying out do to the difference. */
module Ocr2Solvency {
  import opened Bytes
  import opened Ocr2Types
  import opened Encodings
  import opened Ocr2
  import opened Ocr2Invariants
  import opened Ocr2Ledger

  // ----- Sums over oracles

  ghost function SumRounds(oracles: seq<Oracle>, latest: nat): int {
    if oracles == [] then 0
    else SumRounds(oracles[..|oracles| - 1], latest) + (latest - oracles[|oracles| - 1].fromRoundId)
  }

  ghost function SumPayments(oracles: seq<Oracle>): nat {
    if oracles == [] then 0
    else SumPayments(oracles[..|oracles| - 1]) + oracles[|oracles| - 1].payment
  }

  /** The sum of what each oracle is owed. */
  ghost function Due(config: Config, oracles: seq<Oracle>): int {
    if oracles == [] then 0
    else Due(config, oracles[..|oracles| - 1])
         + config.billing.observation * (config.latestRoundId - oracles[|oracles| - 1].fromRoundId)
         + oracles[|oracles| - 1].payment
  }

  lemma {:induction false} DueSplits(config: Config, oracles: seq<Oracle>)
    ensures Due(config, oracles)
            == config.billing.observation * SumRounds(oracles, config.latestRoundId) + SumPayments(oracles)
  {
    if oracles != [] {
      var (front, last) := (oracles[..|oracles| - 1], oracles[|oracles| - 1]);
      DueSplits(config, front);
      var (a, b) := (SumRounds(front, config.latestRoundId), config.latestRoundId - last.fromRoundId);
      Distribute(config.billing.observation, a, -b);
    }
  }

  lemma {:induction false} SumsNonNegative(config: Config, oracles: seq<Oracle>)
    requires NotAhead(oracles, config.latestRoundId)
    ensures SumRounds(oracles, config.latestRoundId) >= 0 && Due(config, oracles) >= 0
  {
    if oracles != [] {
      SumsNonNegative(config, oracles[..|oracles| - 1]);
      MulOrder(config.billing.observation, 0, config.latestRoundId - oracles[|oracles| - 1].fromRoundId);
    }
  }

  // ----- The program's total

  lemma {:induction false} TotalsExact(config: Config, oracles: seq<Oracle>)
    requires NotAhead(oracles, config.latestRoundId)
    ensures var (rounds, payments) := (SumRounds(oracles, config.latestRoundId), SumPayments(oracles));
            && (UnpaidTotals(config.latestRoundId, oracles).Ok? <==> rounds <= U32_MAX && payments <= U64_MAX)
            && (UnpaidTotals(config.latestRoundId, oracles).Ok? ==>
                  UnpaidTotals(config.latestRoundId, oracles).value == (rounds, payments))
  {
    if oracles != [] {
      TotalsExact(config, oracles[..|oracles| - 1]);
    }
  }

  /** The program's total is the sum of what each oracle is owed whenever it succeeds,
      and it succeeds exactly when its three counters fit. */
  lemma TotalDueExact(config: Config, oracles: seq<Oracle>)
    requires NotAhead(oracles, config.latestRoundId)
    ensures TotalDue(config, oracles).Ok? <==>
              SumRounds(oracles, config.latestRoundId) <= U32_MAX && SumPayments(oracles) <= U64_MAX
              && Due(config, oracles) <= U64_MAX
    ensures TotalDue(config, oracles).Ok? ==> TotalDue(config, oracles).value == Due(config, oracles)
  {
    TotalsExact(config, oracles);
    DueSplits(config, oracles);
  }

  // ----- The monitor's total

  /** The rounds the monitor counts: none for an oracle ahead of the latest round. */
  ghost function CountedRounds(oracles: seq<Oracle>, latest: nat): nat {
    if oracles == [] then 0
    else CountedRounds(oracles[..|oracles| - 1], latest) + SaturatingSub(latest, oracles[|oracles| - 1].fromRoundId)
  }

  ghost function CountedDue(config: Config, oracles: seq<Oracle>): nat {
    config.billing.observation * CountedRounds(oracles, config.latestRoundId) + SumPayments(oracles)
  }

  lemma {:induction false} CountedRoundsExact(oracles: seq<Oracle>, latest: nat)
    requires NotAhead(oracles, latest)
    ensures CountedRounds(oracles, latest) == SumRounds(oracles, latest)
  {
    if oracles != [] {
      CountedRoundsExact(oracles[..|oracles| - 1], latest);
    }
  }

  lemma CountedDueExact(config: Config, oracles: seq<Oracle>)
    requires NotAhead(oracles, config.latestRoundId)
    ensures CountedDue(config, oracles) == Due(config, oracles)
  {
    CountedRoundsExact(oracles, config.latestRoundId);
    DueSplits(config, oracles);
  }

  /** `getLinkAvailableForPayment`, with unsigned 64-bit wrap-around: the balance minus what it
      counts as due, as long as that fits in 64 bits. When no oracle is ahead, that is the sum due. */
  method LinkAvailableForPayment(state: AccountState, balance: int) returns (r: Result<int>)
    requires state.WellShaped()
    ensures r.Ok? <==> state.oraclesLen <= MAX_ORACLES
    ensures r.Ok? ==>
              var counted := CountedDue(state.config, state.oracles[..state.oraclesLen]);
              r.value == balance - counted % TWO_64 && (r.value == balance - counted <==> counted <= U64_MAX)
    ensures r.Ok? && NotAhead(state.oracles[..state.oraclesLen], state.config.latestRoundId) ==>
              var due := Due(state.config, state.oracles[..state.oraclesLen]);
              r.value == balance - due % TWO_64 && (r.value == balance - due <==> due <= U64_MAX)
    ensures r.Ok? && NotAhead(state.oracles[..state.oraclesLen], state.config.latestRoundId)
            && TotalDue(state.config, state.oracles[..state.oraclesLen]).Ok? ==>
              r.value == balance - TotalDue(state.config, state.oracles[..state.oraclesLen]).value
  {
    var oracles :- state.OraclesData();
    var unpaidRounds, reimbursements := CountUnpaid(oracles, state.config.latestRoundId);
    var observations := state.config.billing.observation * unpaidRounds;
    var amountDue := (observations % TWO_64 + reimbursements) % TWO_64;
    WrappedSum(observations, SumPayments(oracles));
    assert amountDue == CountedDue(state.config, oracles) % TWO_64;
    Unwrapped(CountedDue(state.config, oracles));
    if NotAhead(oracles, state.config.latestRoundId) {
      CountedDueExact(state.config, oracles);
      TotalDueExact(state.config, oracles);
    }
    return Ok(balance - amountDue);
  }

  /** The counting loop. Up to 19 round counts cannot wrap; reimbursements can. */
  method CountUnpaid(oracles: seq<Oracle>, latest: u32) returns (unpaidRounds: nat, reimbursements: nat)
    requires |oracles| <= MAX_ORACLES
    ensures unpaidRounds == CountedRounds(oracles, latest)
    ensures reimbursements == SumPayments(oracles) % TWO_64
  {
    unpaidRounds, reimbursements := 0, 0;
    for i := 0 to |oracles|
      invariant unpaidRounds <= i * U32_MAX
      invariant unpaidRounds == CountedRounds(oracles[..i], latest)
      invariant reimbursements == SumPayments(oracles[..i]) % TWO_64
    {
      var rounds := 0;
      if latest >= oracles[i].fromRoundId {
        rounds := latest - oracles[i].fromRoundId;
      }
      CountSnoc(oracles, i, latest);
      WrappedAdd(SumPayments(oracles[..i]), oracles[i].payment);
      assert unpaidRounds + rounds <= (i + 1) * U32_MAX;
      Unwrapped(unpaidRounds + rounds);
      unpaidRounds := (unpaidRounds + rounds) % TWO_64;
      reimbursements := (reimbursements + oracles[i].payment) % TWO_64;
    }
    assert oracles[..|oracles|] == oracles;
  }

  lemma CountSnoc(oracles: seq<Oracle>, i: nat, latest: nat)
    requires i < |oracles|
    ensures CountedRounds(oracles[..i + 1], latest)
            == CountedRounds(oracles[..i], latest) + SaturatingSub(latest, oracles[i].fromRoundId)
    ensures SumPayments(oracles[..i + 1]) == SumPayments(oracles[..i]) + oracles[i].payment
  {
    assert oracles[..i + 1][..i] == oracles[..i];
  }

  lemma Unwrapped(n: nat)
    ensures n % TWO_64 == n <==> n <= U64_MAX
  {}

  lemma WrappedAdd(a: int, b: int)
    ensures (a % TWO_64 + b) % TWO_64 == (a + b) % TWO_64
  {}

  lemma WrappedSum(a: int, b: int)
    ensures (a % TWO_64 + b % TWO_64) % TWO_64 == (a + b) % TWO_64
  {}

  // ----- Withdrawing surplus

  /** Withdrawing surplus never uncovers what is due, and never takes more than the surplus. */
  lemma WithdrawFundsKeepsCover(c: Chain, recipient: Bytes32, amount: nat)
    requires NotAhead(c.oracles, c.config.latestRoundId) && ExecWithdrawFunds(c, recipient, amount).Ok?
    ensures var (vault, c') := (c.config.tokenVault, ExecWithdrawFunds(c, recipient, amount).value.chain);
            && vault in c.tokens && vault in c'.tokens && c' == c.(tokens := c'.tokens)
            && (Due(c.config, c.oracles) <= c.tokens[vault].amount ==>
                Due(c'.config, c'.oracles) <= c'.tokens[vault].amount)
            && (Due(c.config, c.oracles) >= c.tokens[vault].amount ==>
                c'.tokens[vault].amount == c.tokens[vault].amount)
            && (recipient != vault ==>
                  var taken := c.tokens[vault].amount - c'.tokens[vault].amount;
                  && recipient in c.tokens && recipient in c'.tokens
                  && c'.tokens[recipient].amount == c.tokens[recipient].amount + taken
                  && taken == Min(amount, var due := Due(c.config, c.oracles);
                                          if due < c.tokens[vault].amount then c.tokens[vault].amount - due else 0))
  {
    TotalDueExact(c.config, c.oracles);
    SumsNonNegative(c.config, c.oracles);
  }

  // ----- Paying out

  ghost function Total(payments: seq<Payment>): nat {
    if payments == [] then 0 else Total(payments[..|payments| - 1]) + payments[|payments| - 1].amount
  }

  /** What a token account receives from payments. */
  ghost function Received(payments: seq<Payment>, key: Bytes32): nat {
    if payments == [] then 0
    else Received(payments[..|payments| - 1], key)
         + if payments[|payments| - 1].to == key then payments[|payments| - 1].amount else 0
  }

  /** Payments that can be made: to accounts of the vault's mint, other than the vault. */
  ghost predicate Payable(tokens: map<Bytes32, TokenAccount>, vault: Bytes32, payments: seq<Payment>) {
    && vault in tokens
    && forall i :: 0 <= i < |payments| ==>
         payments[i].to in tokens && payments[i].to != vault && tokens[payments[i].to].mint == tokens[vault].mint
  }

  /** The supply of the vault's mint fits in 64 bits, so no balance can overflow by receiving from the vault. */
  ghost predicate SupplyFits(tokens: map<Bytes32, TokenAccount>, vault: Bytes32) {
    vault in tokens &&
    forall key :: key in tokens && key != vault && tokens[key].mint == tokens[vault].mint ==>
                    tokens[key].amount + tokens[vault].amount <= U64_MAX
  }

  /** Where every token went. */
  ghost predicate Moved(tokens: map<Bytes32, TokenAccount>, tokens': map<Bytes32, TokenAccount>, vault: Bytes32,
                        payments: seq<Payment>) {
    && tokens'.Keys == tokens.Keys && vault in tokens
    && tokens[vault].amount - Total(payments) == tokens'[vault].amount
    && (forall key :: key in tokens ==>
          tokens'[key].mint == tokens[key].mint && tokens'[key].owner == tokens[key].owner)
    && (forall key :: key in tokens && key != vault ==>
        tokens'[key].amount == tokens[key].amount + Received(payments, key))
  }

  /** A debit of the vault in favour of another account. */
  lemma DebitVault(tokens: map<Bytes32, TokenAccount>, vault: Bytes32, to: Bytes32, amount: nat)
    requires TransferTokens(tokens, vault, to, amount).Ok? && vault != to
    ensures var tokens' := TransferTokens(tokens, vault, to, amount).value;
            && vault in tokens && to in tokens && tokens'.Keys == tokens.Keys
            && tokens'[vault] == tokens[vault].(amount := tokens[vault].amount - amount)
            && tokens'[to] == tokens[to].(amount := tokens[to].amount + amount)
            && forall key :: key in tokens && key != vault && key != to ==> tokens'[key] == tokens[key]
  {}

  /** Covered payments all go through, and move exactly their amounts. */
  lemma {:induction false} PayAllSucceeds(tokens: map<Bytes32, TokenAccount>, vault: Bytes32, payments: seq<Payment>)
    requires Payable(tokens, vault, payments) && SupplyFits(tokens, vault)
    requires Total(payments) <= tokens[vault].amount
    ensures PayAll(tokens, vault, payments).Ok?
    ensures Moved(tokens, PayAll(tokens, vault, payments).value, vault, payments)
  {
    if payments != [] {
      var (front, last) := (payments[..|payments| - 1], payments[|payments| - 1]);
      PayAllSucceeds(tokens, vault, front);
      if last.amount > 0 {
        NextSucceeds(tokens, PayAll(tokens, vault, front).value, vault, front, last);
      }
      PayAllEffect(tokens, vault, payments);
    }
  }

  lemma NextSucceeds(tokens: map<Bytes32, TokenAccount>, before: map<Bytes32, TokenAccount>, vault: Bytes32,
                     front: seq<Payment>, last: Payment)
    requires Moved(tokens, before, vault, front) && SupplyFits(tokens, vault)
    requires last.to in tokens && last.to != vault && tokens[last.to].mint == tokens[vault].mint
    requires Total(front) + last.amount <= tokens[vault].amount
    ensures TransferTokens(before, vault, last.to, last.amount).Ok?
  {
    ReceivedAtMostTotal(front, last.to);
    assert tokens[last.to].amount + tokens[vault].amount <= U64_MAX;
  }

  lemma {:induction false} ReceivedAtMostTotal(payments: seq<Payment>, key: Bytes32)
    ensures Received(payments, key) <= Total(payments)
  {
    if payments != [] {
      ReceivedAtMostTotal(payments[..|payments| - 1], key);
    }
  }

  /** Payments that went through moved exactly their amounts, and the vault covered them. */
  lemma {:induction false} PayAllEffect(tokens: map<Bytes32, TokenAccount>, vault: Bytes32, payments: seq<Payment>)
    requires vault in tokens && forall i :: 0 <= i < |payments| ==> payments[i].to != vault
    requires PayAll(tokens, vault, payments).Ok?
    ensures Moved(tokens, PayAll(tokens, vault, payments).value, vault, payments)
  {
    if payments != [] {
      var (front, last) := (payments[..|payments| - 1], payments[|payments| - 1]);
      PayAllEffect(tokens, vault, front);
      if last.amount > 0 {
        DebitVault(PayAll(tokens, vault, front).value, vault, last.to, last.amount);
      }
    }
  }

  /** The payees the caller must list: each oracle's own. */
  ghost predicate ListsPayees(oracles: seq<Oracle>, payees: seq<Bytes32>) {
    |payees| == |oracles| && forall i :: 0 <= i < |oracles| ==> payees[i] == oracles[i].payee
  }

  /** The vault is an account of the mint it was created for, and nobody is paid into it. */
  ghost predicate VaultApart(c: Chain, receiver: Bytes32) {
    && c.config.tokenVault in c.tokens && c.tokens[c.config.tokenVault].mint == c.config.tokenMint
    && receiver != c.config.tokenVault
    && forall i :: 0 <= i < |c.oracles| ==> c.oracles[i].payee != c.config.tokenVault
  }

  /** With accounts not ahead, the only way to fail is that the amount needs more than 64 bits. */
  lemma OwedExact(c: Chain, i: nat)
    requires i < |c.oracles| && c.oracles[i].fromRoundId <= c.config.latestRoundId
    ensures Owed(c.config.billing, c.oracles[i], c.config.latestRoundId)
            == if Unpaid(c, i) <= U64_MAX then Ok(Unpaid(c, i)) else Err(Overflow)
  {
    UnpaidNonNegative(c, i);
  }

  ghost predicate AllFit(c: Chain) {
    forall i :: 0 <= i < |c.oracles| ==> Unpaid(c, i) <= U64_MAX
  }

  /** Settlement succeeds exactly when every payee is right and every amount fits: one that
      does not fit fails everyone's. */
  lemma SettleExact(c: Chain, payees: seq<Bytes32>, receiver: Bytes32)
    requires NotAhead(c.oracles, c.config.latestRoundId) && |payees| == |c.oracles|
    ensures Settle(c.config, c.oracles, payees, c.tokens, receiver).Ok? <==> ListsPayees(c.oracles, payees) && AllFit(c)
  {
    forall i | 0 <= i < |c.oracles|
      ensures SettleOne(c.config, i, c.oracles[i], payees[i], c.tokens, receiver).Ok?
              <==> payees[i] == c.oracles[i].payee && Unpaid(c, i) <= U64_MAX
    {
      OwedExact(c, i);
    }
    SettleOneByOne(c.config, c.oracles, payees, c.tokens, receiver);
  }

  lemma {:induction false} SettleOneByOne(config: Config, oracles: seq<Oracle>, payees: seq<Bytes32>,
                                          tokens: map<Bytes32, TokenAccount>, receiver: Bytes32)
    requires |oracles| == |payees|
    ensures Settle(config, oracles, payees, tokens, receiver).Ok? <==>
              forall i :: 0 <= i < |oracles| ==> SettleOne(config, i, oracles[i], payees[i], tokens, receiver).Ok?
  {
    if oracles != [] {
      var n := |oracles| - 1;
      SettleOneByOne(config, oracles[..n], payees[..n], tokens, receiver);
    }
  }

  /** The payments made are of the sum due. */
  lemma {:induction false} SettleTotal(config: Config, oracles: seq<Oracle>, payees: seq<Bytes32>,
                                       tokens: map<Bytes32, TokenAccount>, receiver: Bytes32)
    requires |oracles| == |payees| && Settle(config, oracles, payees, tokens, receiver).Ok?
    ensures Total(Settle(config, oracles, payees, tokens, receiver).value) == Due(config, oracles)
  {
    if oracles != [] {
      var n := |oracles| - 1;
      SettleSnoc(config, oracles, payees, tokens, receiver);
      SettleTotal(config, oracles[..n], payees[..n], tokens, receiver);
      SettleOneAmount(config, n, oracles[n], payees[n], tokens, receiver);
      TotalSnoc(Settle(config, oracles[..n], payees[..n], tokens, receiver).value,
                SettleOne(config, n, oracles[n], payees[n], tokens, receiver).value);
    }
  }

  lemma SettleSnoc(config: Config, oracles: seq<Oracle>, payees: seq<Bytes32>,
                   tokens: map<Bytes32, TokenAccount>, receiver: Bytes32)
    requires |oracles| == |payees| > 0 && Settle(config, oracles, payees, tokens, receiver).Ok?
    ensures var n := |oracles| - 1;
            var front := Settle(config, oracles[..n], payees[..n], tokens, receiver);
            var last := SettleOne(config, n, oracles[n], payees[n], tokens, receiver);
            && front.Ok? && last.Ok?
            && Settle(config, oracles, payees, tokens, receiver).value == front.value + [last.value]
  {}

  lemma TotalSnoc(front: seq<Payment>, last: Payment)
    ensures Total(front + [last]) == Total(front) + last.amount
  {
    assert (front + [last])[..|front|] == front;
  }

  lemma SettleOneAmount(config: Config, index: nat, oracle: Oracle, payee: Bytes32,
                        tokens: map<Bytes32, TokenAccount>, receiver: Bytes32)
    requires SettleOne(config, index, oracle, payee, tokens, receiver).Ok?
    ensures SettleOne(config, index, oracle, payee, tokens, receiver).value.amount
            == config.billing.observation * (config.latestRoundId - oracle.fromRoundId) + oracle.payment
  {}

  lemma SettlePayable(c: Chain, payees: seq<Bytes32>, receiver: Bytes32)
    requires VaultApart(c, receiver) && ValidReceiver(c, receiver) && |payees| == |c.oracles|
    requires Settle(c.config, c.oracles, payees, c.tokens, receiver).Ok?
    ensures Payable(c.tokens, c.config.tokenVault, Settle(c.config, c.oracles, payees, c.tokens, receiver).value)
  {
    forall i | 0 <= i < |c.oracles|
      ensures var to := Settle(c.config, c.oracles, payees, c.tokens, receiver).value[i].to;
              to in c.tokens && to != c.config.tokenVault && c.tokens[to].mint == c.config.tokenMint
    {
      SettlePaysOwed(c.config, c.oracles, payees, c.tokens, receiver, i);
    }
  }

  lemma {:induction false} UnpaidAtMostDue(c: Chain, n: nat, i: nat)
    requires i < n <= |c.oracles| && NotAhead(c.oracles, c.config.latestRoundId)
    ensures Unpaid(c, i) <= Due(c.config, c.oracles[..n])
  {
    var front := c.oracles[..n - 1];
    assert c.oracles[..n][..n - 1] == front;
    if i < n - 1 {
      UnpaidNonNegative(c, n - 1);
      UnpaidAtMostDue(c, n - 1, i);
    } else {
      SumsNonNegative(c.config, front);
    }
  }

  /** Amounts covered by the vault fit. */
  lemma CoveredFits(c: Chain)
    requires NotAhead(c.oracles, c.config.latestRoundId) && Due(c.config, c.oracles) <= U64_MAX
    ensures AllFit(c)
  {
    forall i | 0 <= i < |c.oracles|
      ensures Unpaid(c, i) <= U64_MAX
    {
      UnpaidAtMostDue(c, |c.oracles|, i);
      assert c.oracles[..|c.oracles|] == c.oracles;
    }
  }

  lemma {:induction false} SettledDueNothing(config: Config, oracles: seq<Oracle>)
    ensures Due(config, Settled(oracles, config.latestRoundId)) == 0
  {
    if oracles != [] {
      var n := |oracles| - 1;
      SettledDueNothing(config, oracles[..n]);
      assert Settled(oracles, config.latestRoundId)[..n] == Settled(oracles[..n], config.latestRoundId);
    }
  }

  lemma {:induction false} ZeroPayments(tokens: map<Bytes32, TokenAccount>, vault: Bytes32, payments: seq<Payment>)
    requires Total(payments) == 0
    ensures PayAll(tokens, vault, payments) == Ok(tokens)
  {
    if payments != [] {
      ZeroPayments(tokens, vault, payments[..|payments| - 1]);
    }
  }

  /** Payment `i` is what oracle `i` is owed, to its own payee unless that account is unusable. */
  ghost predicate PaysOracle(c: Chain, receiver: Bytes32, payment: Payment, i: nat)
    requires i < |c.oracles|
  {
    var payee := c.oracles[i].payee;
    && payment.oracle == i && payment.amount == Unpaid(c, i)
    && payment.to == if payee in c.tokens && c.tokens[payee].mint == c.config.tokenMint then payee else receiver
  }

  /** Every oracle's account is settled up to the latest round, and otherwise as it was. */
  ghost predicate AllReset(c: Chain, oracles: seq<Oracle>) {
    && |oracles| == |c.oracles|
    && forall i :: 0 <= i < |oracles| ==>
         oracles[i] == c.oracles[i].(payment := 0, fromRoundId := c.config.latestRoundId)
  }

  /** Paying out succeeds exactly when the caller names the right payees and a usable receiver, and
      the vault covers the sum due. It then moves exactly that sum and leaves nothing due. */
  lemma PayOutExact(c: Chain, payees: seq<Bytes32>, receiver: Bytes32)
    requires NotAhead(c.oracles, c.config.latestRoundId)
    requires VaultApart(c, receiver) && SupplyFits(c.tokens, c.config.tokenVault)
    ensures var r := PayOraclesImpl(c, payees, receiver);
            && (r.Ok? <==> receiver in c.tokens && c.tokens[receiver].mint == c.config.tokenMint
                           && ListsPayees(c.oracles, payees)
                           && Due(c.config, c.oracles) <= c.tokens[c.config.tokenVault].amount)
            && (r.Ok? ==>
                  && r.value.chain == c.(oracles := r.value.chain.oracles, tokens := r.value.chain.tokens)
                  && AllReset(c, r.value.chain.oracles)
                  && Total(r.value.payments) == Due(c.config, c.oracles)
                  && Moved(c.tokens, r.value.chain.tokens, c.config.tokenVault, r.value.payments)
                  && Due(r.value.chain.config, r.value.chain.oracles) == 0
                  && |r.value.payments| == |c.oracles|
                  && forall i :: 0 <= i < |c.oracles| ==> PaysOracle(c, receiver, r.value.payments[i], i))
  {
    if ValidReceiver(c, receiver) && |payees| == |c.oracles| {
      SettleExact(c, payees, receiver);
      if Settle(c.config, c.oracles, payees, c.tokens, receiver).Ok? {
        SettledPayOut(c, payees, receiver);
        SettledDueNothing(c.config, c.oracles);
        forall i | 0 <= i < |c.oracles|
          ensures PaysOracle(c, receiver, Settle(c.config, c.oracles, payees, c.tokens, receiver).value[i], i)
        {
          SettlePaysOracle(c, payees, receiver, i);
        }
      } else if Due(c.config, c.oracles) <= U64_MAX {
        CoveredFits(c);
      }
    }
  }

  lemma SettledPayOut(c: Chain, payees: seq<Bytes32>, receiver: Bytes32)
    requires VaultApart(c, receiver) && SupplyFits(c.tokens, c.config.tokenVault) && ValidReceiver(c, receiver)
    requires |payees| == |c.oracles| && Settle(c.config, c.oracles, payees, c.tokens, receiver).Ok?
    ensures var (settle, r) := (Settle(c.config, c.oracles, payees, c.tokens, receiver),
                                PayOraclesImpl(c, payees, receiver));
            && Total(settle.value) == Due(c.config, c.oracles)
            && (r.Ok? <==> Due(c.config, c.oracles) <= c.tokens[c.config.tokenVault].amount)
            && (r.Ok? ==>
                  && r.value.payments == settle.value
                  && Moved(c.tokens, r.value.chain.tokens, c.config.tokenVault, settle.value))
  {
    SettleTotal(c.config, c.oracles, payees, c.tokens, receiver);
    SettlePayable(c, payees, receiver);
    PaidExactly(c, Settle(c.config, c.oracles, payees, c.tokens, receiver).value);
  }

  lemma SettlePaysOracle(c: Chain, payees: seq<Bytes32>, receiver: Bytes32, i: nat)
    requires |payees| == |c.oracles| && Settle(c.config, c.oracles, payees, c.tokens, receiver).Ok? && i < |c.oracles|
    ensures PaysOracle(c, receiver, Settle(c.config, c.oracles, payees, c.tokens, receiver).value[i], i)
  {
    SettlePaysOwed(c.config, c.oracles, payees, c.tokens, receiver, i);
  }

  lemma PaidExactly(c: Chain, payments: seq<Payment>)
    requires SupplyFits(c.tokens, c.config.tokenVault) && Payable(c.tokens, c.config.tokenVault, payments)
    ensures var r := PayAll(c.tokens, c.config.tokenVault, payments);
            && (r.Ok? <==> Total(payments) <= c.tokens[c.config.tokenVault].amount)
            && (r.Ok? ==> Moved(c.tokens, r.value, c.config.tokenVault, payments))
  {
    if PayAll(c.tokens, c.config.tokenVault, payments).Ok? {
      PayAllEffect(c.tokens, c.config.tokenVault, payments);
    }
    if Total(payments) <= c.tokens[c.config.tokenVault].amount {
      PayAllSucceeds(c.tokens, c.config.tokenVault, payments);
    }
  }

  lemma PayOutTwice(c: Chain, payees: seq<Bytes32>, receiver: Bytes32)
    requires VaultApart(c, receiver) && PayOraclesImpl(c, payees, receiver).Ok?
    ensures var paid := PayOraclesImpl(c, payees, receiver).value.chain;
            PayOraclesImpl(paid, payees, receiver).Ok? && PayOraclesImpl(paid, payees, receiver).value.chain == paid
  {
    var paid := PayOraclesImpl(c, payees, receiver).value.chain;
    PayFrame(c, payees, receiver);
    SettlePayable(c, payees, receiver);
    PayAllEffect(c.tokens, c.config.tokenVault, Settle(c.config, c.oracles, payees, c.tokens, receiver).value);
    SettleOneByOne(c.config, c.oracles, payees, c.tokens, receiver);
    SettledDueNothing(c.config, c.oracles);
    CoveredFits(paid);
    SettleExact(paid, payees, receiver);
    SettleTotal(paid.config, paid.oracles, payees, paid.tokens, receiver);
    ZeroPayments(paid.tokens, paid.config.tokenVault,
                 Settle(paid.config, paid.oracles, payees, paid.tokens, receiver).value);
    assert Settled(paid.oracles, paid.config.latestRoundId) == paid.oracles;
  }

  /** Closing succeeds exactly when the owner signs it and paying out does; every oracle has then been paid, the
      receiver has the rest, and the vault is empty. */
  lemma CloseExact(c: Chain, authority: Bytes32, payees: seq<Bytes32>, receiver: Bytes32)
    requires NotAhead(c.oracles, c.config.latestRoundId)
    requires VaultApart(c, receiver) && SupplyFits(c.tokens, c.config.tokenVault)
    ensures var (r, vault) := (ExecClose(c, authority, payees, receiver), c.config.tokenVault);
            && (r.Ok? <==> authority == c.config.owner && PayOraclesImpl(c, payees, receiver).Ok?)
            && (r.Ok? ==>
                  && r.value.payments == PayOraclesImpl(c, payees, receiver).value.payments
                  && r.value.chain == PayOraclesImpl(c, payees, receiver).value.chain.(tokens := r.value.chain.tokens)
                  && r.value.chain.tokens.Keys == c.tokens.Keys && receiver in c.tokens
                  && r.value.chain.tokens[vault].amount == 0
                  && (forall key :: key in c.tokens && key != vault && key != receiver ==>
                      r.value.chain.tokens[key].amount
                      == c.tokens[key].amount + Received(r.value.payments, key))
                  && r.value.chain.tokens[receiver].amount
                     == c.tokens[receiver].amount + Received(r.value.payments, receiver)
                        + (c.tokens[vault].amount - Due(c.config, c.oracles)))
  {
    if PayOraclesImpl(c, payees, receiver).Ok? {
      PayOutMoves(c, payees, receiver);
      var paid := PayOraclesImpl(c, payees, receiver).value;
      if paid.chain.tokens[c.config.tokenVault].amount > 0 {
        RestMoves(c.tokens, paid.chain.tokens, c.config.tokenVault, paid.payments, receiver);
      }
    }
  }

  lemma PayOutMoves(c: Chain, payees: seq<Bytes32>, receiver: Bytes32)
    requires NotAhead(c.oracles, c.config.latestRoundId)
    requires VaultApart(c, receiver) && SupplyFits(c.tokens, c.config.tokenVault)
             && PayOraclesImpl(c, payees, receiver).Ok?
    ensures var paid := PayOraclesImpl(c, payees, receiver).value;
            && ValidReceiver(c, receiver) && paid.chain.config == c.config
            && Total(paid.payments) == Due(c.config, c.oracles)
            && Moved(c.tokens, paid.chain.tokens, c.config.tokenVault, paid.payments)
  {
    PayOutExact(c, payees, receiver);
    PayFrame(c, payees, receiver);
  }

  /** What is left in the vault can go to one more account. */
  lemma RestMoves(tokens: map<Bytes32, TokenAccount>, paid: map<Bytes32, TokenAccount>, vault: Bytes32,
                  payments: seq<Payment>, receiver: Bytes32)
    requires Moved(tokens, paid, vault, payments) && SupplyFits(tokens, vault)
    requires receiver in tokens && receiver != vault && tokens[receiver].mint == tokens[vault].mint
    ensures var r := TransferTokens(paid, vault, receiver, paid[vault].amount);
            && r.Ok? && r.value.Keys == tokens.Keys && r.value[vault].amount == 0
            && (forall key :: key in tokens && key != vault && key != receiver ==> r.value[key] == paid[key])
            && r.value[receiver].amount == paid[receiver].amount + paid[vault].amount
  {
    NextSucceeds(tokens, paid, vault, payments, Payment(0, receiver, paid[vault].amount));
    DebitVault(paid, vault, receiver, paid[vault].amount);
  }
}

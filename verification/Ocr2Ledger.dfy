/** The oracles' accounts: over every run, what each has been paid plus what it is
    still owed is exactly what it earned, at the rates in force when it earned it. */
module Ocr2Ledger {
  import opened Bytes
  import opened Collections
  import opened Ocr2Types
  import opened Ocr2
  import opened Ocr2Invariants
  import ComputeBudget

  // ----- An independent account of a run

  /** An accepted round: the observation rate then in force, and the transmitter's own credit. */
  datatype RoundEntry = RoundEntry(rate: nat, transmitter: nat, credit: nat)

  /** Kept since the current configuration was accepted: the rounds, and per oracle what was
      transferred on its account and what a saturating addition dropped. */
  datatype Books = Books(rounds: seq<RoundEntry>, paid: seq<nat>, lost: seq<nat>)

  function Zeros(n: nat): (r: seq<nat>)
    ensures |r| == n
  {
    seq(n, i => 0)
  }

  /** The transfers on one oracle's account. */
  function PaidTo(payments: seq<Payment>, oracle: nat): nat {
    if payments == [] then 0
    else PaidTo(payments[..|payments| - 1], oracle)
         + if payments[|payments| - 1].oracle == oracle then payments[|payments| - 1].amount else 0
  }

  function AddPayments(paid: seq<nat>, payments: seq<Payment>): (r: seq<nat>)
    ensures |r| == |paid|
  {
    seq(|paid|, i requires 0 <= i < |paid| => paid[i] + PaidTo(payments, i))
  }

  /** What an oracle earned over some rounds: every round's rate, and its own credits. */
  function Earned(rounds: seq<RoundEntry>, oracle: nat): nat {
    if rounds == [] then 0 else
    var last := rounds[|rounds| - 1];
    Earned(rounds[..|rounds| - 1], oracle) + last.rate + if last.transmitter == oracle then last.credit else 0
  }

  /** What a transmission is worth to its transmitter. */
  function Credit(c: Chain, a: Acceptance): nat {
    a.reimbursement + c.config.billing.transmission
  }

  /** What the transmitter's account could not hold. */
  function Dropped(c: Chain, a: Acceptance): nat
    requires a.transmitter < |c.oracles|
  {
    var payment := c.oracles[a.transmitter].payment;
    payment + Credit(c, a) - SaturatingAdd64(payment, SaturatingAdd64(a.reimbursement, c.config.billing.transmission))
  }

  /** The acceptance behind a successful transmit instruction. */
  function AcceptanceOf(env: Env, c: Chain, ix: Ix): (a: Acceptance)
    requires ix.Transmit? && Exec(env, c, ix).Ok?
    ensures a.transmitter < |c.oracles|
  {
    CheckTransmit(env, c, ix.transmitter, ParseTransmission(ix.raw).value, ix.sysvar).value
  }

  function Post(env: Env, c: Chain, books: Books, ix: Ix): Books
    requires |books.lost| == |c.oracles|
  {
    var r := Exec(env, c, ix);
    if r.Err? then books
    else if ix.AcceptProposal? then
      var n := |r.value.chain.oracles|;
      Books([], Zeros(n), Zeros(n))
    else if ix.Transmit? then
      var a := AcceptanceOf(env, c, ix);
      Books(books.rounds + [RoundEntry(c.config.billing.observation, a.transmitter, Credit(c, a))],
            books.paid,
            books.lost[a.transmitter := books.lost[a.transmitter] + Dropped(c, a)])
    else books.(paid := AddPayments(books.paid, r.value.payments))
  }

  // ----- What the chain says is owed

  /** The amount owed, without overflow checks. */
  function Unpaid(c: Chain, i: nat): int
    requires i < |c.oracles|
  {
    c.config.billing.observation * (c.config.latestRoundId - c.oracles[i].fromRoundId) + c.oracles[i].payment
  }

  ghost predicate Balanced(c: Chain, books: Books) {
    && |books.paid| == |books.lost| == |c.oracles|
    && forall i :: 0 <= i < |c.oracles| ==> books.paid[i] + Unpaid(c, i) + books.lost[i] == Earned(books.rounds, i)
  }

  lemma OwedIsUnpaid(c: Chain, i: nat)
    requires i < |c.oracles| && Owed(c.config.billing, c.oracles[i], c.config.latestRoundId).Ok?
    ensures Owed(c.config.billing, c.oracles[i], c.config.latestRoundId).value == Unpaid(c, i)
  {}

  /** Settlement pays each oracle, in its place, exactly what it is owed. */
  lemma {:induction false} SettlePaysOwed(config: Config, oracles: seq<Oracle>, payees: seq<Bytes32>,
                                          tokens: map<Bytes32, TokenAccount>, receiver: Bytes32, i: nat)
    requires |oracles| == |payees| && i < |oracles| && Settle(config, oracles, payees, tokens, receiver).Ok?
    ensures Ok(Settle(config, oracles, payees, tokens, receiver).value[i])
            == SettleOne(config, i, oracles[i], payees[i], tokens, receiver)
  {
    var n := |oracles| - 1;
    if i < n {
      SettlePaysOwed(config, oracles[..n], payees[..n], tokens, receiver, i);
    }
  }

  lemma {:induction false} PaidToByIndex(payments: seq<Payment>, i: nat)
    requires forall k :: 0 <= k < |payments| ==> payments[k].oracle == k
    ensures PaidTo(payments, i) == if i < |payments| then payments[i].amount else 0
  {
    if payments != [] {
      PaidToByIndex(payments[..|payments| - 1], i);
    }
  }

  lemma PaymentsAreOwed(c: Chain, payees: seq<Bytes32>, receiver: Bytes32, i: nat)
    requires PayOraclesImpl(c, payees, receiver).Ok? && i < |c.oracles|
    ensures PaidTo(PayOraclesImpl(c, payees, receiver).value.payments, i) == Unpaid(c, i)
  {
    var payments := Settle(c.config, c.oracles, payees, c.tokens, receiver).value;
    forall k | 0 <= k < |payments|
      ensures payments[k].oracle == k
    {
      SettlePaysOwed(c.config, c.oracles, payees, c.tokens, receiver, k);
    }
    SettlePaysOwed(c.config, c.oracles, payees, c.tokens, receiver, i);
    PaidToByIndex(payments, i);
  }

  /** After settlement nothing is owed, whatever the rate. */
  lemma SettledOwesNothing(c: Chain, oracles: seq<Oracle>, i: nat)
    requires i < |c.oracles| && c.oracles == Settled(oracles, c.config.latestRoundId)
    ensures Unpaid(c, i) == 0
  {}

  lemma PayKeepsBalance(c: Chain, books: Books, payees: seq<Bytes32>, receiver: Bytes32, billing: Billing)
    requires Balanced(c, books) && PayOraclesImpl(c, payees, receiver).Ok?
    ensures var effect := PayOraclesImpl(c, payees, receiver).value;
            Balanced(effect.chain.(config := effect.chain.config.(billing := billing)),
                     books.(paid := AddPayments(books.paid, effect.payments)))
  {
    var effect := PayOraclesImpl(c, payees, receiver).value;
    var c' := effect.chain.(config := effect.chain.config.(billing := billing));
    forall i | 0 <= i < |c'.oracles|
      ensures books.paid[i] + PaidTo(effect.payments, i) + Unpaid(c', i) + books.lost[i] == Earned(books.rounds, i)
    {
      PaymentsAreOwed(c, payees, receiver, i);
      SettledOwesNothing(c', c.oracles, i);
    }
  }

  /** A round adds its rate to what every oracle is owed, and the credit to the transmitter's account. */
  lemma TransmitUnpaid(c: Chain, transmitter: Bytes32, t: Transmission, a: Acceptance, i: nat)
    requires t.Sized() && a.transmitter < |c.oracles| && c.config.latestRoundId < U32_MAX && i < |c.oracles|
    ensures var c' := ApplyTransmit(c, transmitter, t, a);
            Unpaid(c', i) == Unpaid(c, i) + c.config.billing.observation
                             + if i == a.transmitter then Credit(c, a) - Dropped(c, a) else 0
  {
    var rounds := c.config.latestRoundId - c.oracles[i].fromRoundId;
    Distribute(c.config.billing.observation, rounds + 1, rounds);
  }

  lemma TransmitKeepsBalance(env: Env, c: Chain, books: Books, ix: Ix)
    requires Balanced(c, books) && ix.Transmit? && Exec(env, c, ix).Ok?
    ensures Balanced(Step(env, c, ix), Post(env, c, books, ix))
  {
    var (t, a) := (ParseTransmission(ix.raw).value, AcceptanceOf(env, c, ix));
    var (c', books') := (ApplyTransmit(c, ix.transmitter, t, a), Post(env, c, books, ix));
    assert Step(env, c, ix) == c';
    forall i | 0 <= i < |c'.oracles|
      ensures books'.paid[i] + Unpaid(c', i) + books'.lost[i] == Earned(books'.rounds, i)
    {
      TransmitUnpaid(c, ix.transmitter, t, a, i);
      assert books'.rounds[..|books.rounds|] == books.rounds;
    }
  }

  lemma WithdrawKeepsBalance(c: Chain, books: Books, authority: Bytes32, payee: Bytes32)
    requires Balanced(c, books) && ExecWithdrawPayment(c, authority, payee).Ok?
    ensures var effect := ExecWithdrawPayment(c, authority, payee).value;
            Balanced(effect.chain, books.(paid := AddPayments(books.paid, effect.payments)))
  {
    var effect := ExecWithdrawPayment(c, authority, payee).value;
    var index := FindPayee(c.oracles, payee).value;
    OwedIsUnpaid(c, index);
    forall i | 0 <= i < |c.oracles|
      ensures PaidTo(effect.payments, i) + Unpaid(effect.chain, i) == Unpaid(c, i)
    {
      if effect.payments != [] {
        PaidToOne(effect.payments[0], i);
      }
    }
  }

  lemma PaidToOne(p: Payment, i: nat)
    ensures PaidTo([p], i) == if p.oracle == i then p.amount else 0
  {
    assert PaidTo([p][..0], i) == 0;
  }

  /** The accounts of the oracles, apart from their keys. */
  ghost predicate SameAccounts(c: Chain, c': Chain) {
    && |c'.oracles| == |c.oracles|
    && c'.config.billing == c.config.billing && c'.config.latestRoundId == c.config.latestRoundId
    && forall i :: 0 <= i < |c.oracles| ==>
         c'.oracles[i].fromRoundId == c.oracles[i].fromRoundId && c'.oracles[i].payment == c.oracles[i].payment
  }

  lemma SameAccountsKeepBalance(c: Chain, c': Chain, books: Books)
    requires Balanced(c, books) && SameAccounts(c, c')
    ensures Balanced(c', books.(paid := AddPayments(books.paid, [])))
  {
    assert AddPayments(books.paid, []) == books.paid;
    forall i | 0 <= i < |c.oracles|
      ensures Unpaid(c', i) == Unpaid(c, i)
    {}
  }

  /** Nothing else moves money or the account of an oracle. */
  lemma OthersMoveNothing(env: Env, c: Chain, ix: Ix)
    requires Exec(env, c, ix).Ok?
    requires ix.OnProposal? || ix.Admin? || ix.Payeeship? || ix.RequestNewRound? || ix.Outside?
             || (ix.Bill? && ix.billingIx.WithdrawFunds?)
    ensures Exec(env, c, ix).value.payments == [] && SameAccounts(c, Exec(env, c, ix).value.chain)
  {
    match ix
    case OnProposal(key, authority, action) => ProposalFrame(c, key, authority, action);
    case _ =>
  }

  lemma AcceptOpensBooks(env: Env, c: Chain, books: Books, ix: Ix)
    requires |books.lost| == |c.oracles| && ix.AcceptProposal? && Exec(env, c, ix).Ok?
    ensures Balanced(Step(env, c, ix), Post(env, c, books, ix))
  {
    AcceptFrame(env, c, ix.proposal, ix.authority, ix.digest, ix.payees, ix.receiver, ix.slot);
    NothingYet(Step(env, c, ix), c.proposals[ix.proposal].oracles);
  }

  lemma NothingYet(c: Chain, oracles: seq<ProposedOracle>)
    requires c.oracles == Accepted(oracles, c.config.latestRoundId)
    ensures Balanced(c, Books([], Zeros(|c.oracles|), Zeros(|c.oracles|)))
  {
    forall i | 0 <= i < |c.oracles|
      ensures Unpaid(c, i) == 0
    {}
  }

  lemma StepKeepsBalance(env: Env, c: Chain, books: Books, ix: Ix)
    requires Balanced(c, books)
    ensures Balanced(Step(env, c, ix), Post(env, c, books, ix))
  {
    if Exec(env, c, ix).Ok? {
      match ix
      case AcceptProposal(_, _, _, _, _, _) => AcceptOpensBooks(env, c, books, ix);
      case Transmit(_, _, _, _) => TransmitKeepsBalance(env, c, books, ix);
      case WithdrawPayment(authority, payee) => WithdrawKeepsBalance(c, books, authority, payee);
      case Bill(_, _, SetBilling(billing, payees, receiver)) => PayKeepsBalance(c, books, payees, receiver, billing);
      case Bill(_, _, PayOracles(payees, receiver)) => PayKeepsBalance(c, books, payees, receiver, c.config.billing);
      case _ =>
        OthersMoveNothing(env, c, ix);
        SameAccountsKeepBalance(c, Step(env, c, ix), books);
    }
  }

  // ----- Whole runs

  ghost function RunBooks(env: Env, c: Chain, ixs: seq<Ix>): (books: Books)
    requires Initial(c)
    ensures Balanced(Run(env, c, ixs), books)
  {
    if ixs == [] then Books([], [], []) else
    var (before, books) := (Run(env, c, ixs[..|ixs| - 1]), RunBooks(env, c, ixs[..|ixs| - 1]));
    StepKeepsBalance(env, before, books, ixs[|ixs| - 1]);
    Post(env, before, books, ixs[|ixs| - 1])
  }

  /** A transmission whose credit the transmitter's account cannot hold. */
  ghost predicate Saturates(env: Env, c: Chain, ix: Ix) {
    ix.Transmit? && Exec(env, c, ix).Ok? &&
    var a := AcceptanceOf(env, c, ix);
    c.oracles[a.transmitter].payment + Credit(c, a) > U64_MAX
  }

  ghost predicate NeverSaturates(env: Env, c: Chain, ixs: seq<Ix>) {
    forall k :: 0 <= k < |ixs| ==> !Saturates(env, Run(env, c, ixs[..k]), ixs[k])
  }

  /** Nothing is dropped unless an account saturates. */
  lemma DroppedOnlyWhenSaturated(env: Env, c: Chain, ix: Ix)
    requires ix.Transmit? && Exec(env, c, ix).Ok?
    ensures Dropped(c, AcceptanceOf(env, c, ix)) == 0 <==> !Saturates(env, c, ix)
  {}

  /** An instruction that saturates no account leaves no loss where there was none. */
  lemma PostLosesNothing(env: Env, c: Chain, books: Books, ix: Ix, i: nat)
    requires |books.lost| == |c.oracles| && !Saturates(env, c, ix)
    requires i < |books.lost| ==> books.lost[i] == 0
    requires i < |Post(env, c, books, ix).lost|
    ensures Post(env, c, books, ix).lost[i] == 0
  {
    if ix.Transmit? && Exec(env, c, ix).Ok? {
      DroppedOnlyWhenSaturated(env, c, ix);
    }
  }

  lemma NeverSaturatesFront(env: Env, c: Chain, ixs: seq<Ix>)
    requires ixs != [] && NeverSaturates(env, c, ixs)
    ensures NeverSaturates(env, c, ixs[..|ixs| - 1])
    ensures !Saturates(env, Run(env, c, ixs[..|ixs| - 1]), ixs[|ixs| - 1])
  {
    var front := ixs[..|ixs| - 1];
    forall k | 0 <= k < |front|
      ensures !Saturates(env, Run(env, c, front[..k]), front[k])
    {
      assert front[..k] == ixs[..k];
    }
  }

  lemma {:induction false} NoSaturationNoLoss(env: Env, c: Chain, ixs: seq<Ix>, i: nat)
    requires Initial(c)
    requires NeverSaturates(env, c, ixs)
    requires i < |RunBooks(env, c, ixs).lost|
    ensures RunBooks(env, c, ixs).lost[i] == 0
  {
    if ixs != [] {
      var n := |ixs| - 1;
      var (before, books) := (Run(env, c, ixs[..n]), RunBooks(env, c, ixs[..n]));
      NeverSaturatesFront(env, c, ixs);
      if i < |books.lost| {
        NoSaturationNoLoss(env, c, ixs[..n], i);
      }
      PostLosesNothing(env, before, books, ixs[n], i);
    }
  }

  lemma UnpaidNonNegative(c: Chain, i: nat)
    requires i < |c.oracles| && c.oracles[i].fromRoundId <= c.config.latestRoundId
    ensures Unpaid(c, i) >= 0
  {
    MulOrder(c.config.billing.observation, 0, c.config.latestRoundId - c.oracles[i].fromRoundId);
  }

  /** The ledger theorem: in every run, for every oracle of the current configuration,
      paid + owed = earned, as long as no account saturated. */
  lemma LedgerExact(env: Env, c: Chain, ixs: seq<Ix>, i: nat)
    requires Initial(c) && i < |Run(env, c, ixs).oracles|
    ensures var (now, books) := (Run(env, c, ixs), RunBooks(env, c, ixs));
            && |books.paid| == |books.lost| == |now.oracles|
            && books.paid[i] + Unpaid(now, i) + books.lost[i] == Earned(books.rounds, i)
            && (NeverSaturates(env, c, ixs) ==> books.paid[i] + Unpaid(now, i) == Earned(books.rounds, i))
            && Unpaid(now, i) >= 0
  {
    var (now, books) := (Run(env, c, ixs), RunBooks(env, c, ixs));
    assert now.oracles[i].fromRoundId <= now.config.latestRoundId by {
      RunKeepsInv(env, c, ixs);
    }
    UnpaidNonNegative(now, i);
    if NeverSaturates(env, c, ixs) {
      NoSaturationNoLoss(env, c, ixs, i);
    }
  }

  /** A transmission sent the way the node prepares it, with a priced transaction, earns its
      transmitter the reimbursement for exactly that price and its f+1 signatures. */
  lemma PriceReimbursed(env: Env, c: Chain, ix: Ix, m: ComputeBudget.Message, limit: nat, price: nat)
    requires ix.Transmit? && Exec(env, c, ix).Ok?
    requires ComputeBudget.WellFormed(m) && ComputeBudget.NoBudget(m) && m.instructions != []
    requires price <= U64_MAX && limit <= U32_MAX
    requires ix.sysvar == Some(ComputeBudget.Sysvar(ComputeBudget.Prepared(m, limit, price), 1))
    ensures var a := AcceptanceOf(env, c, ix);
            ComputeBudget.Reimburses(a.report.juelsPerLamport, c.config.f + 1, Some(price), a.reimbursement)
  {
    ComputeBudget.PriceReadBack(m, limit, price);
    AcceptedReimbursement(env, c, ix, Some(price));
  }

  lemma AcceptedReimbursement(env: Env, c: Chain, ix: Ix, price: Option<nat>)
    requires ix.Transmit? && Exec(env, c, ix).Ok? && UnitPrice(ix.sysvar) == Ok(price)
    ensures var a := AcceptanceOf(env, c, ix);
            ComputeBudget.Reimburses(a.report.juelsPerLamport, c.config.f + 1, price, a.reimbursement)
  {
    var a := AcceptanceOf(env, c, ix);
    ComputeBudget.ReimbursementExact(a.report.juelsPerLamport, c.config.f + 1, price, a.reimbursement);
  }
}
